/** The byte stream over a message channel: peer.Conn, and io.ReadFull on top of it. */
module PeerConn {
  import opened Wrappers
  import opened Frames

  const MAX_MSG := 16 * 1024

  /** Blocked: no message is left, now or ever, and nothing else can wake the reader. */
  datatype Fault = Eof | Deadline | Blocked | SendFailed

  function Least(n: nat, limit: Option<nat>): nat {
    if limit.None? || n <= limit.value then n else limit.value
  }

  function Later(limit: Option<nat>, k: nat): Option<nat> {
    if limit.Some? && k <= limit.value then Some(limit.value - k) else limit
  }

  class Conn {
    /** Messages in the order OnMessage pushes them, from the next one Read will take to the last there will ever be. */
    var incoming: seq<Bytes>
    var leftover: Bytes
    /** The context was cancelled by Close, by the peer or by an error. */
    var done: bool
    /** Messages handed to DataChannel.Send so far. */
    var sent: seq<Bytes>
    /** How many more messages can be taken, or sent, before the deadline, if one is set. */
    var readDeadline: Option<nat>
    var writeDeadline: Option<nat>
    /** How many more messages DataChannel.Send accepts, if it will ever refuse one. */
    var refusal: Option<nat>

    constructor (incoming: seq<Bytes>, done: bool, refusal: Option<nat>)
      ensures this.incoming == incoming && leftover == [] && this.done == done && sent == []
      ensures readDeadline == writeDeadline == None && this.refusal == refusal
    {
      this.incoming, leftover, this.done, sent := incoming, [], done, [];
      readDeadline, writeDeadline, this.refusal := None, None, refusal;
    }

    /** The bytes still to be read. */
    ghost function Pending(): Bytes
      reads this`incoming, this`leftover
    {
      leftover + Flatten(incoming)
    }

    /** How many of n messages would get through now. */
    ghost function Passes(n: nat): nat
      reads this`done, this`writeDeadline, this`refusal
    {
      if done then 0 else Least(Least(n, writeDeadline), refusal)
    }

    /** From now on writes fail, and a read may fail with messages still there; a second Close changes nothing. */
    method Close()
      modifies this`done
      ensures done
    {
      done := true;
    }

    /** SetDeadline; None takes a deadline away. */
    method SetDeadline(after: Option<nat>)
      modifies this`readDeadline, this`writeDeadline
      ensures readDeadline == writeDeadline == after
    {
      readDeadline, writeDeadline := after, after;
    }

    /**
    A read takes the next bytes, in order and without loss, as many as fit and one message holds; or it fails and takes
    none, which it can only do when nothing is left over, and no message is there, or the deadline or the end has come.
    */
    method Read(room: nat) returns (data: Bytes, fault: Option<Fault>)
      modifies this`incoming, this`leftover, this`readDeadline
      ensures old(Pending()) == data + Pending()
      ensures fault.Some? ==> data == [] && incoming == old(incoming) && leftover == old(leftover) == []
      ensures fault == Some(Eof) ==> done
      ensures fault == Some(Deadline) ==> old(readDeadline) == Some(0) || (old(readDeadline).Some? && incoming == [])
      ensures fault == Some(Blocked) ==> incoming == [] && !done && old(readDeadline).None?
      ensures fault.Some? ==> !fault.value.SendFailed?
      ensures fault.None? ==> Took(old(leftover), old(incoming), room, data, leftover, incoming)
      ensures fault.None? && room > 0 ==>
        |incoming| < |old(incoming)| || (incoming == old(incoming) && |leftover| < |old(leftover)|)
      ensures readDeadline.Some? <==> old(readDeadline).Some?
    {
      if |leftover| > 0 {
        data := HandOut(leftover, room);
        return data, None;
      }
      if readDeadline == Some(0) {
        if * {
          return [], Some(Deadline);
        }
      }
      if done {
        if * {
          return [], Some(Eof);
        }
      }
      if incoming == [] {
        return [], Some(if done then Eof else if readDeadline.Some? then Deadline else Blocked);
      }
      var frame := incoming[0];
      incoming := incoming[1..];
      readDeadline := Later(readDeadline, 1);
      data := HandOut(frame, room);
      fault := None;
    }

    /** copy(p, bytes), keeping what does not fit. */
    method HandOut(bytes: Bytes, room: nat) returns (data: Bytes)
      modifies this`leftover
      ensures data + leftover == bytes && |data| == Least(room, Some(|bytes|))
    {
      var n := if |bytes| < room then |bytes| else room;
      data, leftover := bytes[..n], bytes[n..];
    }

    /**
    io.ReadFull: exactly n bytes, or a fault after which the bytes taken so far are gone.  Without an end or a deadline
    it fails only for want of bytes.
    */
    method ReadFull(n: nat) returns (data: Bytes, fault: Option<Fault>)
      modifies this`incoming, this`leftover, this`readDeadline
      ensures old(Pending()) == data + Pending()
      ensures if fault.None? then |data| == n else |data| < n
      ensures fault == Some(Eof) ==> done
      ensures fault == Some(Deadline) ==> old(readDeadline).Some?
      ensures fault == Some(Blocked) ==> Pending() == [] && !done
      ensures fault.Some? ==> !fault.value.SendFailed?
      ensures readDeadline.Some? <==> old(readDeadline).Some?
    {
      data, fault := [], None;
      while |data| < n
        invariant |data| <= n && fault.None?
        invariant old(Pending()) == data + Pending()
        invariant readDeadline.Some? <==> old(readDeadline).Some?
        decreases |incoming|, |leftover|
      {
        var more, f := Read(n - |data|);
        data := data + more;
        if f.Some? {
          return data, f;
        }
      }
    }

    /** The test before a Send, and the Send itself: one message goes out, or there is a cause why not. */
    method SendOne(chunk: Bytes) returns (fault: Option<Fault>)
      modifies this`sent, this`writeDeadline, this`refusal
      ensures fault.None? <==> old(Passes(1)) == 1
      ensures sent == if fault.None? then old(sent) + [chunk] else old(sent)
      ensures writeDeadline == if fault.None? then Later(old(writeDeadline), 1) else old(writeDeadline)
      ensures refusal == if fault.None? then Later(old(refusal), 1) else old(refusal)
      ensures fault == Some(Eof) ==> done
      ensures fault == Some(Deadline) ==> writeDeadline == Some(0)
      ensures fault == Some(SendFailed) ==> refusal == Some(0)
      ensures fault != Some(Blocked)
    {
      if writeDeadline == Some(0) {
        if !done {
          return Some(Deadline);
        }
        if * {
          return Some(Deadline);
        }
      }
      if done {
        return Some(Eof);
      }
      if refusal == Some(0) {
        return Some(SendFailed);
      }
      sent := sent + [chunk];
      writeDeadline, refusal := Later(writeDeadline, 1), Later(refusal, 1);
      fault := None;
    }

    /**
    Sends the payload in pieces, as many as get through before the context is cancelled, the deadline strikes or the
    channel refuses one; without a fault exactly when that is all of them.
    */
    method Write(p: Bytes) returns (total: nat, fault: Option<Fault>)
      modifies this`sent, this`writeDeadline, this`refusal
      ensures var all := Chunks(p, MAX_MSG);
        var k := old(Passes(|all|));
        && Wrote(old(sent), sent, all, k, total, fault)
        && writeDeadline == Later(old(writeDeadline), k) && refusal == Later(old(refusal), k)
      ensures fault == Some(Eof) ==> done
      ensures fault == Some(Deadline) ==> writeDeadline == Some(0)
      ensures fault == Some(SendFailed) ==> refusal == Some(0)
      ensures fault != Some(Blocked)
    {
      total, fault := 0, None;
      var rest := p;
      ghost var all := Chunks(p, MAX_MSG);
      ghost var most := Passes(|all|);
      ghost var k := 0;
      assert all[..0] == [];
      while |rest| > 0
        invariant fault.None? && k <= |all| && Chunks(rest, MAX_MSG) == all[k..] && k <= most
        invariant writeDeadline == Later(old(writeDeadline), k) && refusal == Later(old(refusal), k)
        invariant Progress(old(sent), sent, all, k, total)
        decreases |rest|
      {
        var chunk := if |rest| > MAX_MSG then rest[..MAX_MSG] else rest;
        NextPiece(all, k, rest, MAX_MSG);
        PassesNext(done, old(writeDeadline), old(refusal), k, |all|);
        ProgressOne(old(sent), sent, all, k, total);
        fault := SendOne(chunk);
        if fault.Some? {
          return;
        }
        total := total + |chunk|;
        rest := rest[|chunk|..];
        k := k + 1;
      }
      assert k == |all|;
    }
  }

  /** k pieces have gone out and been counted. */
  ghost predicate Progress(before: seq<Bytes>, after: seq<Bytes>, all: seq<Bytes>, k: nat, total: nat) {
    k <= |all| && after == before + all[..k] && total == |Flatten(all[..k])|
  }

  lemma ProgressOne(before: seq<Bytes>, after: seq<Bytes>, all: seq<Bytes>, k: nat, total: nat)
    requires k < |all| && Progress(before, after, all, k, total)
    ensures Progress(before, after + [all[k]], all, k + 1, total + |all[k]|)
  {
    assert all[..k + 1] == all[..k] + [all[k]];
    FlattenSnoc(all[..k], all[k]);
  }

  /** After k of n messages that get through, the next one does exactly if more than k do. */
  lemma PassesNext(done: bool, deadline: Option<nat>, refusal: Option<nat>, k: nat, n: nat)
    requires k < n && k <= (if done then 0 else Least(Least(n, deadline), refusal))
    ensures (if done then 0 else Least(Least(1, Later(deadline, k)), Later(refusal, k))) == 1
      <==> k < if done then 0 else Least(Least(n, deadline), refusal)
    ensures k + 1 <= (if done then 0 else Least(Least(n, deadline), refusal)) ==>
      Later(Later(deadline, k), 1) == Later(deadline, k + 1) && Later(Later(refusal, k), 1) == Later(refusal, k + 1)
  {
  }

  /** What fits of the bytes left over, or if there are none of the next message, is taken; the rest is left over. */
  predicate Took(leftover: Bytes, incoming: seq<Bytes>, room: nat, data: Bytes, leftover': Bytes,
                 incoming': seq<Bytes>) {
    if leftover != [] then
      data + leftover' == leftover && |data| == Least(room, Some(|leftover|)) && incoming' == incoming
    else
      && incoming != [] && incoming' == incoming[1..]
      && data + leftover' == incoming[0] && |data| == Least(room, Some(|incoming[0]|))
  }

  /** The first k pieces were sent and counted, and there is no fault exactly when they are all of them. */
  ghost predicate Wrote(before: seq<Bytes>, after: seq<Bytes>, all: seq<Bytes>, k: nat, total: nat,
                        fault: Option<Fault>) {
    Progress(before, after, all, k, total) && (fault.None? <==> k == |all|)
  }

  /** What goes out as one Write goes out in messages of 16384 bytes, and a last one of at most that. */
  lemma {:induction false} MessageSizes(p: Bytes, i: nat)
    requires i < |Chunks(p, MAX_MSG)|
    ensures var all := Chunks(p, MAX_MSG); if i < |all| - 1 then |all[i]| == 16_384 else 0 < |all[i]| <= 16_384
    decreases |p|
  {
    if |p| > MAX_MSG && i > 0 { MessageSizes(p[MAX_MSG..], i - 1); }
  }
}
