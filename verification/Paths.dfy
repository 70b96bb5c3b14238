/** Slash-separated paths: the cleaning that cache keys and the junk filter rely on, as Go's package path defines it. */
module Paths {

  function Split(s: string): (r: seq<string>)
    ensures |r| >= 1
  {
    if s == "" then [""]
    else
      var r := Split(s[1..]);
      if s[0] == '/' then [""] + r else [[s[0]] + r[0]] + r[1..]
  }

  function Join(segs: seq<string>): string {
    if segs == [] then "" else if |segs| == 1 then segs[0] else segs[0] + "/" + Join(segs[1..])
  }

  /** A path element that cleaning leaves alone. */
  predicate Plain(seg: string) {
    seg != "" && seg != "." && seg != ".." && '/' !in seg
  }

  /** The effect of one more element on a cleaned prefix. */
  function Push(rooted: bool, done: seq<string>, seg: string): seq<string> {
    if seg == "" || seg == "." then done
    else if seg != ".." then done + [seg]
    else if done != [] && done[|done| - 1] != ".." then done[..|done| - 1]
    else if rooted then done
    else done + [".."]
  }

  function CleanSegs(rooted: bool, segs: seq<string>): seq<string> {
    if segs == [] then [] else Push(rooted, CleanSegs(rooted, segs[..|segs| - 1]), segs[|segs| - 1])
  }

  predicate Rooted(s: string) { s != "" && s[0] == '/' }

  /** path.Clean */
  function Clean(s: string): string {
    var done := CleanSegs(Rooted(s), Split(s));
    if Rooted(s) then "/" + Join(done) else if done == [] then "." else Join(done)
  }

  function TrimSlash(s: string): string {
    if s != "" && s[|s| - 1] == '/' then s[..|s| - 1] else s
  }

  /** The cache key of a name as received from a client. */
  function Normalize(p: string): string {
    if p == "" then "/"
    else
      var q := Clean("/" + TrimSlash(p));
      if q == "" then "/" else q
  }

  /** A cache key as the list of its elements. */
  function Key(p: string): seq<string> {
    CleanSegs(true, Split(p))
  }

  function Render(key: seq<string>): string {
    "/" + Join(key)
  }

  ghost predicate Canonical(key: seq<string>) {
    forall seg | seg in key :: Plain(seg)
  }

  function Parent(key: seq<string>): seq<string> {
    if key == [] then [] else key[..|key| - 1]
  }

  lemma {:induction false} SplitNoSlash(s: string)
    ensures forall seg | seg in Split(s) :: '/' !in seg
  {
    if s != "" { SplitNoSlash(s[1..]); }
  }

  lemma {:induction false} SplitPlain(s: string)
    requires '/' !in s
    ensures Split(s) == [s]
  {
    if s != "" {
      SplitPlain(s[1..]);
      assert [s[0]] + s[1..] == s;
    }
  }

  lemma {:induction false} SplitAppend(a: string, b: string)
    ensures Split(a + "/" + b) == Split(a) + Split(b)
  {
    var s := a + "/" + b;
    if a == "" {
      assert s[1..] == b;
    } else {
      assert s[1..] == a[1..] + "/" + b;
      SplitAppend(a[1..], b);
    }
  }

  /** Splitting undoes joining. */
  lemma {:induction false} SplitJoin(segs: seq<string>)
    requires segs != [] && forall seg | seg in segs :: '/' !in seg
    ensures Split(Join(segs)) == segs
  {
    SplitPlain(segs[0]);
    if |segs| > 1 {
      SplitJoin(segs[1..]);
      SplitAppend(segs[0], Join(segs[1..]));
      assert segs == [segs[0]] + segs[1..];
    }
  }

  lemma {:induction false} CleanSegsAppend(rooted: bool, a: seq<string>, seg: string)
    ensures CleanSegs(rooted, a + [seg]) == Push(rooted, CleanSegs(rooted, a), seg)
  {
    assert (a + [seg])[..|a|] == a;
  }

  lemma {:induction false} CleanSegsDropsEmpty(rooted: bool, segs: seq<string>)
    ensures CleanSegs(rooted, [""] + segs) == CleanSegs(rooted, segs)
  {
    var all := [""] + segs;
    if segs == [] {
      assert all[..0] == [];
    } else {
      var n := |segs| - 1;
      assert all[..|all| - 1] == [""] + segs[..n];
      CleanSegsDropsEmpty(rooted, segs[..n]);
    }
  }

  /** Rooted cleaning leaves only plain elements. */
  lemma {:induction false} CleanIsCanonical(segs: seq<string>)
    requires forall seg | seg in segs :: '/' !in seg
    ensures Canonical(CleanSegs(true, segs))
  {
    if segs != [] {
      var n := |segs| - 1;
      assert forall seg | seg in segs[..n] :: seg in segs;
      CleanIsCanonical(segs[..n]);
    }
  }

  /** Cleaning changes nothing in a canonical key. */
  lemma {:induction false} CleanKeepsCanonical(key: seq<string>)
    requires Canonical(key)
    ensures CleanSegs(true, key) == key
  {
    if key != [] {
      var n := |key| - 1;
      assert Canonical(key[..n]) && Plain(key[n]) by {
        assert key[n] in key && forall seg | seg in key[..n] :: seg in key;
      }
      CleanKeepsCanonical(key[..n]);
      assert key == key[..n] + [key[n]];
    }
  }

  lemma KeyIsCanonical(p: string)
    ensures Canonical(Key(p))
  {
    SplitNoSlash(p);
    CleanIsCanonical(Split(p));
  }

  lemma TrimKeepsKey(p: string)
    ensures Key(TrimSlash(p)) == Key(p)
  {
    if TrimSlash(p) != p {
      var q := TrimSlash(p);
      assert p == q + "/" + "";
      SplitAppend(q, "");
      CleanSegsAppend(true, Split(q), "");
    }
  }

  /** The string the cache uses is the rendering of the key, whatever the client sent. */
  lemma NormalizeIsRender(p: string)
    ensures Normalize(p) == Render(Key(p))
  {
    if p == "" {
      assert Split("")[..0] == [];
      assert CleanSegs(true, [""]) == CleanSegs(true, []);
    } else {
      var q := TrimSlash(p);
      assert ("/" + q)[1..] == q;
      CleanSegsDropsEmpty(true, Split(q));
      TrimKeepsKey(p);
    }
  }

  /** Rendering loses nothing: keys are recovered from their strings. */
  lemma RenderKey(key: seq<string>)
    requires Canonical(key)
    ensures Key(Render(key)) == key
  {
    assert Render(key)[1..] == Join(key);
    CleanSegsDropsEmpty(true, Split(Join(key)));
    if key == [] {
      assert CleanSegs(true, [""]) == CleanSegs(true, []) by { assert [""][..0] == []; }
    } else {
      SplitJoin(key);
      CleanKeepsCanonical(key);
    }
  }

  /** Normalizing twice is normalizing once, and two names share a cache slot exactly when their keys agree. */
  lemma NormalizeIdempotent(p: string, q: string)
    ensures Normalize(Normalize(p)) == Normalize(p)
    ensures Normalize(p) == Normalize(q) <==> Key(p) == Key(q)
  {
    NormalizeIsRender(p);
    NormalizeIsRender(q);
    NormalizeIsRender(Normalize(p));
    KeyIsCanonical(p);
    KeyIsCanonical(q);
    RenderKey(Key(p));
    RenderKey(Key(q));
  }

  /** path.Join of a key and the name of a child. */
  function JoinChild(n: string, child: string): string {
    Clean(n + "/" + child)
  }

  /** path.Dir: what precedes the last slash, cleaned. */
  function Dir(n: string): string {
    Clean(BeforeLastSlash(n))
  }

  function BeforeLastSlash(s: string): string {
    if s == "" || s[|s| - 1] == '/' then s else BeforeLastSlash(s[..|s| - 1])
  }

  /** The key that Readdir seeds for a child is the key a later Stat of that child computes. */
  lemma SeededKeyIsStatKey(key: seq<string>, child: string)
    requires Canonical(key) && Plain(child)
    ensures JoinChild(Render(key), child) == Render(key + [child]) == Normalize(Render(key) + "/" + child)
    ensures Key(Render(key) + "/" + child) == key + [child]
  {
    var p := Render(key) + "/" + child;
    SplitAppend(Render(key), child);
    SplitPlain(child);
    CleanSegsAppend(true, Split(Render(key)), child);
    RenderKey(key);
    assert Rooted(p);
    NormalizeIsRender(p);
  }

  lemma {:induction false} BeforeLastSlashIs(s: string, seg: string)
    requires '/' !in seg
    ensures BeforeLastSlash(s + "/" + seg) == s + "/"
  {
    var t := s + "/" + seg;
    if seg == "" {
      assert t == s + "/";
    } else {
      assert t[..|t| - 1] == s + "/" + seg[..|seg| - 1];
      BeforeLastSlashIs(s, seg[..|seg| - 1]);
    }
  }

  lemma {:induction false} JoinSnoc(key: seq<string>, seg: string)
    requires key != []
    ensures Join(key + [seg]) == Join(key) + "/" + seg
  {
    if |key| > 1 {
      assert (key + [seg])[1..] == key[1..] + [seg];
      JoinSnoc(key[1..], seg);
    }
  }

  lemma RootDir()
    ensures Clean("/") == "/"
  {
    assert Split("/") == [""] + Split("");
    assert ["", ""][..1] == [""] && [""][..0] == [];
  }

  lemma DirOfChild(up: seq<string>, seg: string)
    requires Canonical(up) && '/' !in seg
    ensures Dir(Render(up) + "/" + seg) == Render(up)
  {
    BeforeLastSlashIs(Render(up), seg);
    var d := Render(up) + "/";
    assert d == Render(up) + "/" + "";
    SplitAppend(Render(up), "");
    CleanSegsAppend(true, Split(Render(up)), "");
    RenderKey(up);
    assert Rooted(d);
  }

  /** The directory key that invalidate drops is the key of the parent. */
  lemma DirIsParent(key: seq<string>)
    requires Canonical(key)
    ensures Dir(Render(key)) == Render(Parent(key))
  {
    if key == [] {
      assert BeforeLastSlash("/") == "/";
      RootDir();
    } else {
      var up, seg := Parent(key), key[|key| - 1];
      assert key == up + [seg] && Plain(seg);
      assert Canonical(up) by { assert forall s | s in up :: s in key; }
      if up == [] {
        BeforeLastSlashIs("", seg);
        assert Render(key) == "" + "/" + seg;
        assert BeforeLastSlash(Render(key)) == "/";
        RootDir();
      } else {
        JoinSnoc(up, seg);
        assert Render(key) == Render(up) + "/" + seg;
        DirOfChild(up, seg);
      }
    }
  }

  lemma PlainKey(name: string)
    requires Plain(name)
    ensures Key(name) == [name]
  {
    SplitPlain(name);
    CleanSegsAppend(true, [], name);
    assert [] + [name] == [name];
  }

  // ------------------------------------------------------------------------------------------------------------
  // What each kind of element does, on the strings themselves
  // ------------------------------------------------------------------------------------------------------------

  lemma KeyOneMore(p: string, seg: string)
    requires '/' !in seg
    ensures Key(p + "/" + seg) == Push(true, Key(p), seg)
  {
    SplitAppend(p, seg);
    SplitPlain(seg);
    CleanSegsAppend(true, Split(p), seg);
  }

  lemma PushUp(done: seq<string>)
    requires Canonical(done)
    ensures Push(true, done, "..") == Parent(done)
  {
    if done != [] { assert done[|done| - 1] in done; }
  }

  /** ".." goes one level up, but never above the root. */
  lemma DotDotIsParent(p: string)
    ensures Key(p + "/..") == Parent(Key(p))
  {
    KeyIsCanonical(p);
    KeyOneMore(p, "..");
    PushUp(Key(p));
    assert p + "/" + ".." == p + "/..";
  }

  /** A plain element goes one level down. */
  lemma PlainIsChild(p: string, seg: string)
    requires Plain(seg)
    ensures Key(p + "/" + seg) == Key(p) + [seg]
  {
    KeyOneMore(p, seg);
  }

  /** "." and an empty element go nowhere. */
  lemma DotIsIdle(p: string)
    ensures Key(p + "/.") == Key(p + "/") == Key(p)
  {
    KeyOneMore(p, ".");
    KeyOneMore(p, "");
    assert p + "/" + "." == p + "/." && p + "/" + "" == p + "/";
  }

  lemma OneSegment(seg: string)
    requires '/' !in seg
    ensures Key(seg) == Push(true, [], seg)
  {
    SplitPlain(seg);
    CleanSegsAppend(true, [], seg);
    assert [] + [seg] == [seg];
  }

  /** The root has these names, among others. */
  lemma RootNames()
    ensures Key("") == Key("/") == Key(".") == Key("..") == Key("/..") == []
  {
    OneSegment("");
    OneSegment(".");
    OneSegment("..");
    DotIsIdle("");
    DotDotIsParent("");
    assert "" + "/" == "/" && "" + "/.." == "/..";
  }

  /** What follows a prefix of a name depends on the prefix only by its key. */
  lemma {:induction false} CleanAfter(rooted: bool, a: seq<string>, b: seq<string>, more: seq<string>)
    requires CleanSegs(rooted, a) == CleanSegs(rooted, b)
    ensures CleanSegs(rooted, a + more) == CleanSegs(rooted, b + more)
  {
    if more == [] {
      assert a + more == a && b + more == b;
    } else {
      CleanAfter(rooted, a, b, more[..|more| - 1]);
      CleanLast(rooted, a, more);
      CleanLast(rooted, b, more);
    }
  }

  lemma CleanLast(rooted: bool, a: seq<string>, more: seq<string>)
    requires more != []
    ensures CleanSegs(rooted, a + more)
      == Push(rooted, CleanSegs(rooted, a + more[..|more| - 1]), more[|more| - 1])
  {
    assert a + more == (a + more[..|more| - 1]) + [more[|more| - 1]];
    CleanSegsAppend(rooted, a + more[..|more| - 1], more[|more| - 1]);
  }

  lemma SameKeyAfter(a: string, b: string, q: string)
    requires Key(a) == Key(b)
    ensures Normalize(a + "/" + q) == Normalize(b + "/" + q)
  {
    SplitAppend(a, q);
    SplitAppend(b, q);
    CleanAfter(true, Split(a), Split(b), Split(q));
    NormalizeIsRender(a + "/" + q);
    NormalizeIsRender(b + "/" + q);
  }

  lemma Regroup(a: string, q: string)
    ensures (a + "/..") + "/" + q == a + "/../" + q
  {
    assert "/.." + ("/" + q) == "/../" + q;
  }

  lemma BackWhereItWas(p: string, seg: string)
    requires Plain(seg)
    ensures Key((p + "/" + seg) + "/..") == Key(p)
  {
    PlainIsChild(p, seg);
    DotDotIsParent(p + "/" + seg);
  }

  /** ".." takes back the plain element before it, wherever in a name the two stand. */
  lemma DotDotTakesBack(p: string, seg: string, q: string)
    requires Plain(seg)
    ensures Normalize(p + "/" + seg + "/..") == Normalize(p)
    ensures Normalize(p + "/" + seg + "/../" + q) == Normalize(p + "/" + q)
  {
    var down := p + "/" + seg;
    var up := down + "/..";
    BackWhereItWas(p, seg);
    NormalizeIdempotent(up, p);
    SameKeyAfter(up, p, q);
    Regroup(down, q);
  }

  lemma RootUp(q: string)
    ensures Normalize("/.." + "/" + q) == Normalize("" + "/" + q)
  {
    RootNames();
    SameKeyAfter("/..", "", q);
  }

  /** At the root it has nothing to take back. */
  lemma DotDotIdlesAtRoot(q: string)
    ensures Normalize("/..") == "/" && Normalize("/../" + q) == Normalize("/" + q)
  {
    RootNames();
    NormalizeIsRender("/..");
    RootUp(q);
    Regroup("", q);
    assert "" + "/.." == "/.." && "" + "/../" == "/../" && "" + "/" == "/";
  }

  /** One ".." more than n of them. */
  function Ups(n: nat): string {
    if n == 0 then ".." else Ups(n - 1) + "/.."
  }

  function UpSegs(n: nat): seq<string> {
    if n == 0 then [".."] else UpSegs(n - 1) + [".."]
  }

  lemma {:induction false} UpsSplit(n: nat)
    ensures Split(Ups(n)) == UpSegs(n) && Ups(n) != "" && !Rooted(Ups(n))
  {
    if n == 0 {
      SplitPlain("..");
    } else {
      UpsSplit(n - 1);
      SplitAppend(Ups(n - 1), "..");
      SplitPlain("..");
      assert Ups(n - 1) + "/" + ".." == Ups(n);
    }
  }

  lemma PushUps(done: seq<string>)
    requires done == [] || done[|done| - 1] == ".."
    ensures Push(false, done, "..") == done + [".."]
  {
  }

  lemma OneUp()
    ensures CleanSegs(false, [".."]) == [".."]
  {
    CleanSegsAppend(false, [], "..");
    PushUps([]);
    assert [] + [".."] == [".."];
  }

  lemma {:induction false} UpsStay(n: nat)
    ensures UpSegs(n) != [] && UpSegs(n)[|UpSegs(n)| - 1] == ".." && CleanSegs(false, UpSegs(n)) == UpSegs(n)
  {
    if n == 0 {
      OneUp();
    } else {
      var before := UpSegs(n - 1);
      assert UpSegs(n) == before + [".."];
      UpsStay(n - 1);
      CleanSegsAppend(false, before, "..");
      PushUps(before);
    }
  }

  lemma {:induction false} UpsJoin(n: nat)
    ensures UpSegs(n) != [] && Join(UpSegs(n)) == Ups(n)
  {
    if n > 0 {
      UpsJoin(n - 1);
      JoinSnoc(UpSegs(n - 1), "..");
      assert Ups(n - 1) + "/" + ".." == Ups(n);
    }
  }

  /** Cleaning a relative name keeps the ".." that have nothing to take back. */
  lemma RelativeUpsStay(n: nat)
    ensures Clean(Ups(n)) == Ups(n)
  {
    UpsSplit(n);
    UpsStay(n);
    UpsJoin(n);
  }

  lemma DownAndUp(rooted: bool, done: seq<string>, seg: string)
    requires Plain(seg)
    ensures Push(rooted, Push(rooted, done, seg), "..") == done
  {
    assert (done + [seg])[..|done|] == done;
  }

  lemma DownAndUpSegs(rooted: bool, p: string, seg: string)
    requires Plain(seg)
    ensures CleanSegs(rooted, Split((p + "/" + seg) + "/" + "..")) == CleanSegs(rooted, Split(p))
  {
    SplitAppend(p, seg);
    SplitAppend(p + "/" + seg, "..");
    SplitPlain(seg);
    SplitPlain("..");
    CleanSegsAppend(rooted, Split(p), seg);
    CleanSegsAppend(rooted, Split(p) + [seg], "..");
    DownAndUp(rooted, CleanSegs(rooted, Split(p)), seg);
  }

  /** And takes back a plain element with the ".." after it, as for rooted names. */
  lemma RelativeTakesBack(p: string, seg: string)
    requires Plain(seg) && p != ""
    ensures Clean(p + "/" + seg + "/..") == Clean(p)
  {
    var name := (p + "/" + seg) + "/" + "..";
    DownAndUpSegs(Rooted(p), p, seg);
    assert Rooted(name) == Rooted(p);
    assert "/" + ".." == "/..";
    assert name == p + "/" + seg + "/..";
  }
}
