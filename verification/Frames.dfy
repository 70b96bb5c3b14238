/** Bytes, messages and length-prefixed frames. */
module Frames {

  type Byte = b: int | 0 <= b < 256
  type Bytes = seq<Byte>

  const MAX_FRAME := 0xFFFF

  function Flatten(parts: seq<Bytes>): Bytes {
    if parts == [] then [] else parts[0] + Flatten(parts[1..])
  }

  lemma {:induction false} FlattenAppend(a: seq<Bytes>, b: seq<Bytes>)
    ensures Flatten(a + b) == Flatten(a) + Flatten(b)
  {
    if a == [] {
      assert a + b == b;
    } else {
      assert (a + b)[1..] == a[1..] + b;
      FlattenAppend(a[1..], b);
    }
  }

  lemma FlattenSnoc(a: seq<Bytes>, x: Bytes)
    ensures Flatten(a + [x]) == Flatten(a) + x
  {
    FlattenAppend(a, [x]);
    assert [x][1..] == [];
  }

  /** Cutting a payload into pieces of at most m bytes, all but the last of exactly m. */
  function Chunks(p: Bytes, m: nat): (r: seq<Bytes>)
    requires m > 0
    decreases |p|
  {
    if p == [] then [] else if |p| <= m then [p] else [p[..m]] + Chunks(p[m..], m)
  }

  /** The pieces give the payload back. */
  lemma {:induction false} ChunksCover(p: Bytes, m: nat)
    requires m > 0
    ensures Flatten(Chunks(p, m)) == p
    decreases |p|
  {
    if 0 < |p| <= m {
      FlattenSnoc([], p);
    } else if |p| > m {
      ChunksCover(p[m..], m);
      FlattenAppend([p[..m]], Chunks(p[m..], m));
      FlattenSnoc([], p[..m]);
    }
  }

  /** None is empty or too large. */
  lemma {:induction false} ChunksSmall(p: Bytes, m: nat)
    requires m > 0
    ensures forall c | c in Chunks(p, m) :: 0 < |c| <= m
    decreases |p|
  {
    if |p| > m { ChunksSmall(p[m..], m); }
  }

  function Head(rest: Bytes, m: nat): Bytes {
    if |rest| > m then rest[..m] else rest
  }

  /** One turn of a loop that takes pieces off the front: the next of all the pieces. */
  lemma NextPiece(all: seq<Bytes>, k: nat, rest: Bytes, m: nat)
    requires m > 0 && rest != [] && k <= |all| && Chunks(rest, m) == all[k..]
    ensures var c := Head(rest, m); k < |all| && all[k] == c && Chunks(rest[|c|..], m) == all[k + 1..]
  {
    var c := Head(rest, m);
    assert Chunks(rest, m)[0] == c;
    assert Chunks(rest[|c|..], m) == Chunks(rest, m)[1..];
    assert all[k..][1..] == all[k + 1..];
  }

  /** Their number is the length over m, rounded up. */
  lemma {:induction false} ChunksCount(p: Bytes, m: nat)
    requires m > 0
    ensures |p| <= |Chunks(p, m)| * m < |p| + m
    decreases |p|
  {
    if |p| > m {
      ChunksCount(p[m..], m);
      OneMore(|Chunks(p[m..], m)|, m);
    }
  }

  lemma OneMore(k: nat, m: nat)
    ensures (k + 1) * m == k * m + m
  {
  }

  function Header(n: nat): Bytes
    requires n <= MAX_FRAME
  {
    [n / 256, n % 256]
  }

  function Length(a: Byte, b: Byte): nat { a * 256 + b }

  function PrintFrame(p: Bytes): Bytes
    requires |p| <= MAX_FRAME
  {
    Header(|p|) + p
  }

  predicate Fits(fs: seq<Bytes>) { forall f | f in fs :: |f| <= MAX_FRAME }

  function PrintAll(fs: seq<Bytes>): Bytes
    requires Fits(fs)
  {
    if fs == [] then [] else PrintFrame(fs[0]) + PrintAll(fs[1..])
  }

  predicate Whole(raw: Bytes) {
    |raw| >= 2 && |raw| >= 2 + Length(raw[0], raw[1])
  }

  function FirstFrame(raw: Bytes): Bytes
    requires Whole(raw)
  {
    raw[2..2 + Length(raw[0], raw[1])]
  }

  function AfterFirst(raw: Bytes): Bytes
    requires Whole(raw)
  {
    raw[2 + Length(raw[0], raw[1])..]
  }

  /** On the wire the length comes first, its high byte before its low byte, then as many bytes of payload. */
  lemma LengthOnTheWire(p: Bytes, raw: Bytes)
    requires |p| <= 65_535
    ensures var f := PrintFrame(p); |f| == 2 + |p| && f[0] as int * 256 + f[1] as int == |p| && f[2..] == p
    ensures Whole(raw) <==> |raw| >= 2 && |raw| >= 2 + raw[0] as int * 256 + raw[1] as int
    ensures Whole(raw) ==> raw == raw[..2] + FirstFrame(raw) + AfterFirst(raw)
    ensures Whole(raw) ==> |FirstFrame(raw)| == raw[0] as int * 256 + raw[1] as int
  {
  }

  /** All the whole frames at the front. */
  function Parse(raw: Bytes): seq<Bytes>
    decreases |raw|
  {
    if Whole(raw) then [FirstFrame(raw)] + Parse(AfterFirst(raw)) else []
  }

  /** What is left behind them. */
  function Rest(raw: Bytes): Bytes
    decreases |raw|
  {
    if Whole(raw) then Rest(AfterFirst(raw)) else raw
  }

  lemma FirstOfPrinted(p: Bytes, tail: Bytes)
    requires |p| <= MAX_FRAME
    ensures Whole(PrintFrame(p) + tail)
    ensures FirstFrame(PrintFrame(p) + tail) == p && AfterFirst(PrintFrame(p) + tail) == tail
  {
    var raw := PrintFrame(p) + tail;
    assert raw[0] == |p| / 256 && raw[1] == |p| % 256;
    assert Length(raw[0], raw[1]) == |p|;
  }

  lemma ParsePrinted(p: Bytes, tail: Bytes)
    requires |p| <= MAX_FRAME
    ensures Parse(PrintFrame(p) + tail) == [p] + Parse(tail) && Rest(PrintFrame(p) + tail) == Rest(tail)
  {
    FirstOfPrinted(p, tail);
    ParseFirst(PrintFrame(p) + tail);
  }

  /** Parsing gives back exactly what was printed, and carries on with what follows. */
  lemma {:induction false} ParsePrint(fs: seq<Bytes>, tail: Bytes)
    requires Fits(fs)
    ensures Parse(PrintAll(fs) + tail) == fs + Parse(tail) && Rest(PrintAll(fs) + tail) == Rest(tail)
  {
    if fs == [] {
      assert PrintAll(fs) + tail == tail;
    } else {
      var after := PrintAll(fs[1..]) + tail;
      ParsePrint(fs[1..], tail);
      ParsePrinted(fs[0], after);
      PrintAllFirst(fs, tail);
      FirstAndRest(fs, Parse(tail));
    }
  }

  lemma FirstAndRest(fs: seq<Bytes>, more: seq<Bytes>)
    requires fs != []
    ensures [fs[0]] + (fs[1..] + more) == fs + more
  {
  }

  lemma PrintAllFirst(fs: seq<Bytes>, tail: Bytes)
    requires fs != [] && Fits(fs)
    ensures PrintAll(fs) + tail == PrintFrame(fs[0]) + (PrintAll(fs[1..]) + tail)
  {
  }

  lemma ParseFirst(raw: Bytes)
    requires Whole(raw)
    ensures Parse(raw) == [FirstFrame(raw)] + Parse(AfterFirst(raw)) && Rest(raw) == Rest(AfterFirst(raw))
  {
  }

  lemma PrintFirst(raw: Bytes)
    requires Whole(raw)
    ensures |FirstFrame(raw)| <= MAX_FRAME && PrintFrame(FirstFrame(raw)) + AfterFirst(raw) == raw
  {
    var n := Length(raw[0], raw[1]);
    assert n / 256 == raw[0] && n % 256 == raw[1];
    assert raw == raw[..2] + raw[2..2 + n] + raw[2 + n..];
  }

  /** And printing what was parsed, with the rest, gives back the bytes. */
  lemma {:induction false} PrintParse(raw: Bytes)
    ensures Fits(Parse(raw)) && PrintAll(Parse(raw)) + Rest(raw) == raw && !Whole(Rest(raw))
    decreases |raw|
  {
    if Whole(raw) {
      PrintParse(AfterFirst(raw));
      PrintFirst(raw);
      assert Parse(raw)[1..] == Parse(AfterFirst(raw));
    }
  }
}
