/** The encrypted stream: secure.Conn over peer.Conn, with the cipher as an abstract pair of functions. */
module SecureConn {
  import opened Wrappers
  import opened Frames
  import opened PeerConn

  const MAX_PAYLOAD := 16 * 1024 - 64
  const TAG := 16
  /** The last counter value is reserved. */
  const NONCE_LIMIT: nat := 0xFFFF_FFFF_FFFF_FFFF

  /** One direction of the transport: what sealing a plaintext under a counter gives, and what opening gives back. */
  datatype Cipher = Cipher(seal: (nat, Bytes) -> Bytes, unseal: (nat, Bytes) -> Option<Bytes>)

  ghost predicate Sealed(c: Cipher, n: nat, p: Bytes) {
    |c.seal(n, p)| == |p| + TAG && c.unseal(n, c.seal(n, p)) == Some(p)
  }

  /** The cipher adds its tag, and opening undoes sealing under the same counter. */
  ghost predicate Correct(c: Cipher) {
    forall n: nat, p: Bytes :: Sealed(c, n, p)
  }

  /** The frame that carries one chunk. */
  function Seal(c: Cipher, n: nat, chunk: Bytes): Bytes {
    var ct := c.seal(n, chunk);
    if |ct| <= MAX_FRAME then PrintFrame(ct) else []
  }

  /** The frames that carry the chunks, one counter value each. */
  function SealAll(c: Cipher, n: nat, chunks: seq<Bytes>): seq<Bytes>
    decreases |chunks|
  {
    if chunks == [] then [] else [Seal(c, n, chunks[0])] + SealAll(c, n + 1, chunks[1..])
  }

  lemma {:induction false} SealAllSnoc(c: Cipher, n: nat, chunks: seq<Bytes>, x: Bytes)
    ensures SealAll(c, n, chunks + [x]) == SealAll(c, n, chunks) + [Seal(c, n + |chunks|, x)]
    ensures |SealAll(c, n, chunks)| == |chunks|
    decreases |chunks|
  {
    if chunks == [] {
      assert [x][1..] == [];
    } else {
      assert (chunks + [x])[1..] == chunks[1..] + [x];
      SealAllSnoc(c, n + 1, chunks[1..], x);
    }
  }

  function Take(p: Bytes, room: nat): Bytes { if |p| <= room then p else p[..room] }

  function Keep(p: Bytes, room: nat): Bytes { if |p| <= room then [] else p[room..] }

  /** The receiving half: the counter, the tail of the last frame, and the bytes still to be read from below. */
  datatype Rx = Rx(nonce: nat, buf: Bytes, pending: Bytes)

  /** A Read that succeeds: from the tail of the last frame if there is one, else from the next frame. */
  function ReadStep(c: Cipher, rx: Rx, room: nat): Option<(Bytes, Rx)> {
    if rx.buf != [] then Some((Take(rx.buf, room), rx.(buf := Keep(rx.buf, room))))
    else if !Whole(rx.pending) || rx.nonce >= NONCE_LIMIT then None
    else match c.unseal(rx.nonce, FirstFrame(rx.pending))
      case None => None
      case Some(p) => Some((Take(p, room), Rx(rx.nonce + 1, Keep(p, room), AfterFirst(rx.pending))))
  }

  /** The bytes begin with a frame that opens under the counter. */
  predicate Opens(c: Cipher, nonce: nat, pending: Bytes) {
    Whole(pending) && nonce < 18_446_744_073_709_551_615 && c.unseal(nonce, FirstFrame(pending)).Some?
  }

  /** How many counter values are left. */
  function Spare(nonce: nat): nat { if nonce < NONCE_LIMIT then NONCE_LIMIT - nonce else 0 }

  lemma TooShort(hdr: Bytes, body: Bytes)
    requires |hdr| == 2 && |body| < Length(hdr[0], hdr[1])
    ensures !Whole(hdr + body)
  {
    assert (hdr + body)[0] == hdr[0] && (hdr + body)[1] == hdr[1];
  }

  class Conn {
    const raw: PeerConn.Conn
    const enc: Cipher
    const dec: Cipher
    var encNonce: nat
    var decNonce: nat
    var readBuf: Bytes

    constructor (raw: PeerConn.Conn, enc: Cipher, dec: Cipher)
      ensures this.raw == raw && this.enc == enc && this.dec == dec
      ensures encNonce == 0 && decNonce == 0 && readBuf == []
    {
      this.raw, this.enc, this.dec, encNonce, decNonce, readBuf := raw, enc, dec, 0, 0, [];
    }

    ghost function View(): Rx
      reads this`readBuf, this`decNonce, raw`incoming, raw`leftover
    {
      Rx(decNonce, readBuf, raw.Pending())
    }

    /** Nothing but a missing frame keeps the bytes below from being read. */
    ghost predicate Undisturbed()
      reads raw`done, raw`readDeadline
    {
      !raw.done && raw.readDeadline.None?
    }

    /** The next frame, or a fault, for which there must be a cause. */
    method ReadFrame() returns (body: Bytes, fault: Option<Fault>)
      modifies raw`incoming, raw`leftover, raw`readDeadline
      ensures fault.None? ==> var before := old(raw.Pending());
        Whole(before) && body == FirstFrame(before) && raw.Pending() == AfterFirst(before)
      ensures fault.Some? ==> old(!Undisturbed() || !Whole(raw.Pending()))
      ensures fault == Some(Eof) ==> raw.done
      ensures raw.readDeadline.Some? <==> old(raw.readDeadline).Some?
    {
      ghost var before := raw.Pending();
      var hdr, f := raw.ReadFull(2);
      if f.Some? {
        assert f == Some(Blocked) ==> before == hdr + [];
        return [], f;
      }
      var n := Length(hdr[0], hdr[1]);
      body, fault := raw.ReadFull(n);
      assert before == hdr + body + raw.Pending();
      if fault == Some(Blocked) {
        assert before == hdr + body;
        TooShort(hdr, body);
      }
    }

    /**
    A Read that succeeds is a ReadStep, and it succeeds whenever there is something kept, or a frame comes without
    fault and opens under the counter; undisturbed below, whenever a ReadStep is possible at all.  One that fails hands
    out nothing and leaves the counter where it was; what it has taken from below is lost.
    */
    method Read(room: nat) returns (data: Bytes, ok: bool, ghost fault: Option<Fault>)
      modifies this`readBuf, this`decNonce, raw`incoming, raw`leftover, raw`readDeadline
      ensures ok ==> ReadStep(dec, old(View()), room) == Some((data, View()))
      ensures ok <==> old(readBuf) != [] || (fault.None? && Opens(dec, old(decNonce), old(raw.Pending())))
      ensures old(Undisturbed()) ==> (ok <==> ReadStep(dec, old(View()), room).Some?)
      ensures fault.Some? ==> old(!Undisturbed() || !Whole(raw.Pending()))
      ensures !ok ==> data == [] && readBuf == old(readBuf) == [] && decNonce == old(decNonce)
      ensures !ok && fault.None? ==> Whole(old(raw.Pending())) && raw.Pending() == AfterFirst(old(raw.Pending()))
    {
      ok, fault := true, None;
      if |readBuf| > 0 {
        data := HandOut(readBuf, room);
        return;
      }
      var ct, f := ReadFrame();
      fault := f;
      if f.Some? || decNonce >= NONCE_LIMIT {
        return [], false, f;
      }
      var plain := dec.unseal(decNonce, ct);
      if plain.None? {
        return [], false, f;
      }
      decNonce := decNonce + 1;
      data := HandOut(plain.value, room);
    }

    /** copy(p, plain), keeping what does not fit. */
    method HandOut(plain: Bytes, room: nat) returns (data: Bytes)
      modifies this`readBuf
      ensures data == Take(plain, room) && readBuf == Keep(plain, room)
    {
      var n := if |plain| < room then |plain| else room;
      data, readBuf := plain[..n], plain[n..];
    }

    /**
    Write seals the payload in chunks and sends one frame, which is one message, for each, as many as the channel lets
    through and counter values are left for.  A chunk whose sending failed has used up a counter value and reached
    nobody.
    */
    method Write(p: Bytes) returns (total: nat, ok: bool)
      requires Correct(enc)
      modifies this`encNonce, raw`sent, raw`writeDeadline, raw`refusal
      ensures var all := Chunks(p, MAX_PAYLOAD);
        var k := Least(old(raw.Passes(|all|)), Some(Spare(old(encNonce))));
        Sent(enc, old(encNonce), encNonce, old(raw.sent), raw.sent, all, k, total, ok)
    {
      total, ok := 0, true;
      var rest := p;
      ghost var all := Chunks(p, MAX_PAYLOAD);
      ghost var most := Least(raw.Passes(|all|), Some(Spare(encNonce)));
      ghost var k := 0;
      assert all[..0] == [];
      while |rest| > 0
        invariant ok && k <= |all| && Chunks(rest, MAX_PAYLOAD) == all[k..]
        invariant k <= most
        invariant raw.writeDeadline == Later(old(raw.writeDeadline), k) && raw.refusal == Later(old(raw.refusal), k)
        invariant SealedSoFar(enc, old(encNonce), encNonce, old(raw.sent), raw.sent, all, k, total)
        decreases |rest|
      {
        var chunk := if |rest| > MAX_PAYLOAD then rest[..MAX_PAYLOAD] else rest;
        NextPiece(all, k, rest, MAX_PAYLOAD);
        MostNext(raw.done, old(raw.writeDeadline), old(raw.refusal), old(encNonce), k, |all|);
        SealedOne(enc, old(encNonce), encNonce, old(raw.sent), raw.sent, all, k, total);
        ok := SealAndSend(chunk);
        if !ok {
          return;
        }
        total := total + |chunk|;
        rest := rest[|chunk|..];
        k := k + 1;
      }
      assert k == |all|;
    }

    /** One turn of the loop. */
    method SealAndSend(chunk: Bytes) returns (ok: bool)
      requires Correct(enc) && |chunk| <= MAX_PAYLOAD
      modifies this`encNonce, raw`sent, raw`writeDeadline, raw`refusal
      ensures ok <==> old(raw.Passes(1)) == 1 && old(encNonce) < 18_446_744_073_709_551_615
      ensures encNonce == old(encNonce) + (if old(encNonce) < NONCE_LIMIT then 1 else 0)
      ensures raw.sent == if ok then old(raw.sent) + [Seal(enc, old(encNonce), chunk)] else old(raw.sent)
      ensures raw.writeDeadline == Later(old(raw.writeDeadline), if ok then 1 else 0)
      ensures raw.refusal == Later(old(raw.refusal), if ok then 1 else 0)
    {
      if encNonce >= NONCE_LIMIT {
        return false;
      }
      ok := SendChunk(chunk);
    }

    /** Encrypt, and write one frame. */
    method SendChunk(chunk: Bytes) returns (ok: bool)
      requires Correct(enc) && |chunk| <= MAX_PAYLOAD && encNonce < NONCE_LIMIT
      modifies this`encNonce, raw`sent, raw`writeDeadline, raw`refusal
      ensures encNonce == old(encNonce) + 1 && (ok <==> old(raw.Passes(1)) == 1)
      ensures raw.sent == if ok then old(raw.sent) + [Seal(enc, old(encNonce), chunk)] else old(raw.sent)
      ensures raw.writeDeadline == Later(old(raw.writeDeadline), if ok then 1 else 0)
      ensures raw.refusal == Later(old(raw.refusal), if ok then 1 else 0)
    {
      var ct := enc.seal(encNonce, chunk);
      assert Sealed(enc, encNonce, chunk);
      encNonce := encNonce + 1;
      SingleChunk(PrintFrame(ct));
      OneMessage(PrintFrame(ct));
      ok := WriteFrame(ct);
    }

    /** A frame goes out as one Write on the message channel; one that does not fit its length field is refused. */
    method WriteFrame(ct: Bytes) returns (ok: bool)
      modifies raw`sent, raw`writeDeadline, raw`refusal
      ensures |ct| > MAX_FRAME ==> !ok && raw.sent == old(raw.sent)
      ensures |ct| <= MAX_FRAME ==> var all := Chunks(PrintFrame(ct), MAX_MSG);
        var k := old(raw.Passes(|all|));
        && raw.sent == old(raw.sent) + all[..k] && (ok <==> k == |all|)
        && raw.writeDeadline == Later(old(raw.writeDeadline), k) && raw.refusal == Later(old(raw.refusal), k)
    {
      if |ct| > MAX_FRAME {
        return false;
      }
      var total, fault := raw.Write(PrintFrame(ct));
      ok := fault.None?;
    }
  }

  lemma SingleChunk(frame: Bytes)
    requires 0 < |frame| <= MAX_MSG
    ensures Chunks(frame, MAX_MSG) == [frame]
  {
  }

  /** The next chunk goes out exactly if more than k of them do. */
  lemma MostNext(done: bool, deadline: Option<nat>, refusal: Option<nat>, n: nat, k: nat, all: nat)
    requires var passes := if done then 0 else Least(Least(all, deadline), refusal);
      k < all && k <= Least(passes, Some(Spare(n)))
    ensures var passes := if done then 0 else Least(Least(all, deadline), refusal);
      var next := if done then 0 else Least(Least(1, Later(deadline, k)), Later(refusal, k));
      && (k < Least(passes, Some(Spare(n))) <==> next == 1 && n + k < NONCE_LIMIT)
      && (k < Least(passes, Some(Spare(n))) ==>
           && Later(Later(deadline, k), 1) == Later(deadline, k + 1)
           && Later(Later(refusal, k), 1) == Later(refusal, k + 1))
  {
    PassesNext(done, deadline, refusal, k, all);
  }

  /** k chunks have gone out as frames, one counter value each. */
  ghost predicate SealedSoFar(c: Cipher, n: nat, n': nat, before: seq<Bytes>, after: seq<Bytes>, all: seq<Bytes>,
                              k: nat, total: nat) {
    k <= |all| && n' == n + k && after == before + SealAll(c, n, all[..k]) && total == |Flatten(all[..k])|
  }

  lemma SealedOne(c: Cipher, n: nat, n': nat, before: seq<Bytes>, after: seq<Bytes>, all: seq<Bytes>, k: nat,
                  total: nat)
    requires k < |all| && SealedSoFar(c, n, n', before, after, all, k, total)
    ensures SealedSoFar(c, n, n' + 1, before, after + [Seal(c, n', all[k])], all, k + 1, total + |all[k]|)
  {
    assert all[..k + 1] == all[..k] + [all[k]];
    SealAllSnoc(c, n, all[..k], all[k]);
    FlattenSnoc(all[..k], all[k]);
  }

  /** What is one message is sent whole or not at all. */
  lemma OneMessage(frame: Bytes)
    ensures [frame][..0] == [] && [frame][..1] == [frame]
  {
  }

  /**
  The first k chunks were sent as frames, one counter value each; unless that is all of them, one more value is used up
  by the chunk that was refused, if there was one left.
  */
  ghost predicate Sent(c: Cipher, n: nat, n': nat, before: seq<Bytes>, after: seq<Bytes>, all: seq<Bytes>, k: nat,
                       total: nat, ok: bool) {
    && k <= |all| && after == before + SealAll(c, n, all[..k]) && total == |Flatten(all[..k])|
    && (ok <==> k == |all|)
    && n' == n + k + (if !ok && n + k < NONCE_LIMIT then 1 else 0)
  }
}
