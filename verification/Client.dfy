/** The signalling client: one retry per write, redialling with backoff, the join first on every connection. */
module Client {
  import opened Wrappers

  /** Milliseconds. */
  const FIRST_BACKOFF := 250
  const MAX_BACKOFF := 5_000

  datatype Frame = Join | Data(tag: nat)

  /** A frame that was written without error, and the connection it went out on. */
  datatype Written = Written(conn: nat, frame: Frame)

  /** What a dial and the join after it will come to. */
  datatype Attempt = DialFails | JoinFails | Connects

  datatype WriteResult = Fine | Recoverable | Fatal

  datatype Outcome = Sent | Failed | Panicked

  datatype Incoming = Received(tag: nat) | Lost | Broken

  function Pow2(k: nat): nat { if k == 0 then 1 else 2 * Pow2(k - 1) }

  /** The k-th wait of one redial loop. */
  function Wait(k: nat): nat {
    if FIRST_BACKOFF * Pow2(k) < MAX_BACKOFF then FIRST_BACKOFF * Pow2(k) else MAX_BACKOFF
  }

  function Waits(n: nat): seq<nat> { if n == 0 then [] else Waits(n - 1) + [Wait(n - 1)] }

  /** They start at 250 ms and double up to 5 s. */
  lemma {:induction false} WaitsAt(n: nat, k: nat)
    requires k < n
    ensures |Waits(n)| == n && Waits(n)[0] == 250
    ensures k > 0 ==> Waits(n)[k] == if 2 * Waits(n)[k - 1] < 5_000 then 2 * Waits(n)[k - 1] else 5_000
  {
    if k < n - 1 {
      WaitsAt(n - 1, k);
    } else if n > 1 {
      WaitsAt(n - 1, n - 2);
      WaitDoubles(k - 1);
      LastWait(n - 1);
    } else {
      WaitDoubles(0);
    }
  }

  lemma LastWait(n: nat)
    requires n > 0
    ensures |Waits(n)| > 0 && Waits(n)[|Waits(n)| - 1] == Wait(n - 1)
  {
  }

  /** How many attempts come before the first that connects. */
  function Tries(fate: seq<Attempt>): nat {
    if fate == [] || fate[0].Connects? then 0 else 1 + Tries(fate[1..])
  }

  lemma {:induction false} TriesBounded(fate: seq<Attempt>)
    ensures Tries(fate) <= |fate| && (Tries(fate) < |fate| ==> fate[Tries(fate)].Connects?)
    ensures forall i | 0 <= i < Tries(fate) :: !fate[i].Connects?
  {
    if fate != [] && !fate[0].Connects? { TriesBounded(fate[1..]); }
  }

  lemma WaitDoubles(k: nat)
    ensures Wait(0) == FIRST_BACKOFF
    ensures Wait(k + 1) == if 2 * Wait(k) > MAX_BACKOFF then MAX_BACKOFF else 2 * Wait(k)
  {
    assert Pow2(k + 1) == 2 * Pow2(k);
  }

  /** The first frame on every connection is the join. */
  ghost predicate JoinFirst(log: seq<Written>) {
    forall i | 0 <= i < |log| && log[i].frame != Join ::
      exists j :: 0 <= j < i && log[j] == Written(log[i].conn, Join)
  }

  ghost predicate OnlyJoins(log: seq<Written>) { forall w | w in log :: w.frame == Join }

  /** What a first dial leaves behind: the join on its connection, or after a redial two on a later one. */
  predicate Started(conn: nat, dialled: nat, log: seq<Written>) {
    || (conn == 0 && dialled == 1 && log == [Written(0, Join)])
    || (1 <= conn < dialled && log == [Written(conn, Join), Written(conn, Join)])
  }

  lemma JoinFirstExtends(log: seq<Written>, w: Written)
    requires JoinFirst(log) && (w.frame == Join || Written(w.conn, Join) in log)
    ensures JoinFirst(log + [w])
  {
    var all := log + [w];
    forall i | 0 <= i < |all| && all[i].frame != Join
      ensures exists j :: 0 <= j < i && all[j] == Written(all[i].conn, Join)
    {
      if i < |log| {
        var j :| 0 <= j < i && log[j] == Written(log[i].conn, Join);
        assert all[j] == Written(all[i].conn, Join);
      } else {
        var j :| 0 <= j < |log| && log[j] == Written(w.conn, Join);
        assert all[j] == Written(all[i].conn, Join);
      }
    }
  }

  /** k attempts of one redial loop have failed, and as many waits are over. */
  ghost predicate Retried(all: seq<Attempt>, k: nat, left: seq<Attempt>, backoff: nat, before: seq<nat>,
                          waits: seq<nat>) {
    && k <= Tries(all) <= |all| && left == all[k..] && Tries(left) == Tries(all) - k
    && backoff == Wait(k) && waits == before + Waits(k)
  }

  lemma RedialStep(all: seq<Attempt>, k: nat, left: seq<Attempt>, backoff: nat, before: seq<nat>, waits: seq<nat>)
    requires Retried(all, k, left, backoff, before, waits)
    ensures left == [] ==> k == Tries(all) == |all|
    ensures left != [] && left[0].Connects? ==> k == Tries(all) < |all| && left[1..] == all[k + 1..]
    ensures left != [] && !left[0].Connects? ==>
      Retried(all, k + 1, left[1..], if backoff * 2 > MAX_BACKOFF then MAX_BACKOFF else backoff * 2, before,
                 waits + [backoff])
  {
    WaitDoubles(k);
    if left != [] && !left[0].Connects? {
      assert left[1..] == all[k + 1..];
      assert Waits(k + 1) == Waits(k) + [Wait(k)];
    }
  }

  /** After a number of redial loops: the attempts still to come, the waits, and whether the last one connected. */
  datatype Redialling = Redialling(fate: seq<Attempt>, waits: seq<nat>, back: bool)

  function RedialOf(fate: seq<Attempt>): Redialling {
    var k := Tries(fate);
    Redialling(if k < |fate| then fate[k + 1..] else [], Waits(k), k < |fate|)
  }

  function Redials(fate: seq<Attempt>, n: nat): Redialling {
    if n == 0 then Redialling(fate, [], true)
    else
      var before := Redials(fate, n - 1);
      RedialOf(before.fate).(waits := before.waits + RedialOf(before.fate).waits)
  }

  /** The recoverable errors among the first entries, none but the last of which is anything else. */
  function Losses(coming: seq<Incoming>, used: nat): nat
    requires used <= |coming|
  {
    if used > 0 && !coming[used - 1].Lost? then used - 1 else used
  }

  /** After n redial loops: the attempts used up, the waits made, one join for each loop that connected, and no more. */
  ghost predicate Redialled(fate: seq<Attempt>, waits: seq<nat>, log: seq<Written>, n: nat, r: Redialling,
                            log': seq<Written>) {
    && r == Redials(fate, n).(waits := waits + Redials(fate, n).waits)
    && log <= log' && OnlyJoins(log'[|log|..]) && |log'| == |log| + n - (if r.back then 0 else 1)
  }

  lemma OneMoreJoin(log: seq<Written>, now: seq<Written>, conn: nat)
    requires log <= now && OnlyJoins(now[|log|..])
    ensures log <= now + [Written(conn, Join)] && OnlyJoins((now + [Written(conn, Join)])[|log|..])
  {
    assert (now + [Written(conn, Join)])[|log|..] == now[|log|..] + [Written(conn, Join)];
  }

  lemma RedialledOnce(fate: seq<Attempt>, waits: seq<nat>, log: seq<Written>, n: nat, r: Redialling,
                      log': seq<Written>, conn: nat)
    requires Redialled(fate, waits, log, n, r, log') && r.back
    ensures var k := Tries(r.fate);
      if k < |r.fate|
      then Redialled(fate, waits, log, n + 1, Redialling(r.fate[k + 1..], r.waits + Waits(k), true),
                     log' + [Written(conn, Join)])
      else Redialled(fate, waits, log, n + 1, Redialling([], r.waits + Waits(k), false), log')
  {
    OneMoreJoin(log, log', conn);
  }

  class Client {
    /** nil between a failed redial and for ever after. */
    var conn: Option<nat>
    /** What the coming dial attempts will come to; the client is closed when they have run out. */
    var fate: seq<Attempt>
    var dialled: nat
    var log: seq<Written>
    var waits: seq<nat>

    /** A live connection has carried the join; there is none only once the client is closed. */
    ghost predicate Valid()
      reads this
    {
      && JoinFirst(log)
      && (forall w | w in log :: w.conn < dialled)
      && (conn.Some? ==> Written(conn.value, Join) in log && conn.value < dialled)
      && (conn.None? ==> fate == [])
    }

    constructor (fate: seq<Attempt>)
      ensures this.fate == fate && log == [] && waits == [] && dialled == 1 && conn == Some(0)
    {
      this.fate, log, waits, dialled, conn := fate, [], [], 1, Some(0);
    }

    /** The join of the first dial, with the one retry that every write has. */
    method FirstJoin(first: WriteResult, second: WriteResult) returns (ok: bool)
      requires log == [] && waits == [] && dialled == 1 && conn == Some(0)
      modifies this
      ensures ok <==> first.Fine? || (first.Recoverable? && Tries(old(fate)) < |old(fate)| && second.Fine?)
      ensures ok ==> Valid() && conn.Some? && Started(conn.value, dialled, log)
      ensures JoinFirst(log)
    {
      if first.Fine? {
        log := log + [Written(0, Join)];
        return true;
      }
      if first.Fatal? {
        return false;
      }
      var back := ReconnectLocked();
      if !back || !second.Fine? {
        return false;
      }
      log := log + [Written(conn.value, Join)];
      return true;
    }

    /**
    Redials until an attempt connects or the client is closed.  The k-th wait of the loop is 250 ms doubled k times,
    at most 5 s; a connection is kept only once the join has gone out on it.
    */
    method ReconnectLocked() returns (ok: bool)
      requires JoinFirst(log) && forall w | w in log :: w.conn < dialled
      modifies this
      ensures var n := Tries(old(fate));
        && ok == (n < |old(fate)|)
        && waits == old(waits) + Waits(n)
        && (ok ==> conn.Some? && conn.value >= old(dialled) && log == old(log) + [Written(conn.value, Join)])
        && (ok ==> fate == old(fate)[n + 1..])
        && (!ok ==> conn.None? && fate == [] && log == old(log))
      ensures Valid()
    {
      conn := None;
      var backoff: nat := FIRST_BACKOFF;
      ghost var k := 0;
      WaitDoubles(0);
      TriesBounded(fate);
      while true
        invariant Retried(old(fate), k, fate, backoff, old(waits), waits)
        invariant conn.None? && log == old(log) && dialled >= old(dialled)
        decreases |fate|
      {
        RedialStep(old(fate), k, fate, backoff, old(waits), waits);
        if fate == [] {
          return false;
        }
        var attempt := fate[0];
        fate := fate[1..];
        if !attempt.DialFails? {
          var next := dialled;
          dialled := dialled + 1;
          if attempt.Connects? {
            log := log + [Written(next, Join)];
            conn := Some(next);
            JoinFirstExtends(old(log), Written(next, Join));
            return true;
          }
        }
        waits := waits + [backoff];
        backoff := backoff * 2;
        if backoff > MAX_BACKOFF {
          backoff := MAX_BACKOFF;
        }
        k := k + 1;
      }
    }

    /**
    Send: a nil error means the envelope went out exactly once, after at most one redial; an error means it went out
    on no connection.  Without a connection, which happens only after a redial gave up, the call panics.
    */
    method WriteEnvelope(tag: nat, first: WriteResult, second: WriteResult) returns (r: Outcome)
      requires Valid()
      modifies this
      ensures Valid()
      ensures r.Panicked? <==> old(conn).None?
      ensures r.Sent? <==> (old(conn).Some?
        && (first.Fine? || (first.Recoverable? && Tries(old(fate)) < |old(fate)| && second.Fine?)))
      ensures if old(conn).Some? && first.Recoverable?
              then fate == RedialOf(old(fate)).fate && waits == old(waits) + RedialOf(old(fate)).waits
              else fate == old(fate) && waits == old(waits) && conn == old(conn) && dialled == old(dialled)
      ensures r.Sent? ==> (conn.Some? && log == old(log)
        + (if first.Fine? then [] else [Written(conn.value, Join)]) + [Written(conn.value, Data(tag))])
      ensures r.Sent? && !first.Fine? ==> conn.value >= old(dialled)
      ensures !r.Sent? ==> log == old(log) || (r.Failed? && conn.Some? && log == old(log) + [Written(conn.value, Join)])
    {
      if conn.None? {
        return Panicked;
      }
      if first.Fine? {
        JoinFirstExtends(log, Written(conn.value, Data(tag)));
        log := log + [Written(conn.value, Data(tag))];
        return Sent;
      }
      if first.Fatal? {
        return Failed;
      }
      var back := ReconnectLocked();
      if !back {
        return Failed;
      }
      if !second.Fine? {
        return Failed;
      }
      JoinFirstExtends(log, Written(conn.value, Data(tag)));
      log := log + [Written(conn.value, Data(tag))];
      return Sent;
    }

    /** The redial of a Recv, which takes the write lock for it: the next in a row of them. */
    method RedialForRead(ghost fate0: seq<Attempt>, ghost waits0: seq<nat>, ghost log0: seq<Written>, ghost n: nat)
      returns (back: bool)
      requires Valid() && Redialled(fate0, waits0, log0, n, Redialling(fate, waits, true), log)
      modifies this
      ensures Valid() && back == conn.Some?
      ensures Redialled(fate0, waits0, log0, n + 1, Redialling(fate, waits, back), log)
    {
      ghost var before, written := Redialling(fate, waits, true), log;
      back := ReconnectLocked();
      RedialledOnce(fate0, waits0, log0, n, before, written, if back then conn.value else 0);
    }

    /**
    Recv: reads on, redialling once after each recoverable error, until an envelope arrives, an error is final or a
    redial gives up; no envelope is passed over.
    */
    method Recv(coming: seq<Incoming>) returns (got: Option<nat>, used: nat)
      requires Valid() && conn.Some?
      modifies this
      ensures Valid() && used <= |coming|
      ensures forall i | 0 <= i < used && !coming[i].Lost? :: i == used - 1
      ensures got == if used > 0 && coming[used - 1].Received? then Some(coming[used - 1].tag) else None
      ensures used < |coming| ==> used > 0 && (!coming[used - 1].Lost? || conn.None?)
      ensures Redialled(old(fate), old(waits), old(log), Losses(coming, used),
                        Redialling(fate, waits, conn.Some?), log)
    {
      used := 0;
      ghost var n := 0;
      while used < |coming|
        invariant Valid() && conn.Some? && n == used <= |coming|
        invariant forall i | 0 <= i < used :: coming[i].Lost?
        invariant Redialled(old(fate), old(waits), old(log), n, Redialling(fate, waits, true), log)
      {
        var e := coming[used];
        used := used + 1;
        if !e.Lost? {
          assert Losses(coming, used) == n;
          return if e.Received? then Some(e.tag) else None, used;
        }
        var back := RedialForRead(old(fate), old(waits), old(log), n);
        n := n + 1;
        assert Losses(coming, used) == n;
        if !back {
          return None, used;
        }
      }
      got := None;
      assert Losses(coming, used) == n;
    }
  }
}
