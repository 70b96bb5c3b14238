/** The junk filter over a file system: the path test, the guarded calls, and the in-place compaction of listings. */
module Filter {
  import opened Paths
  import opened Upstream

  const JUNK_EXACT: set<string> := {
    ".DS_Store", ".Spotlight-V100", ".Trashes", ".TemporaryItems", ".fseventsd",
    ".apdisk", ".localized", "$RECYCLE.BIN", "desktop.ini", "Thumbs.db"
  }

  const JUNK_PREFIX := "._"

  predicate JunkName(base: string) {
    base in JUNK_EXACT || JUNK_PREFIX <= base
  }

  function TrimSlashes(s: string): string {
    if s != "" && s[|s| - 1] == '/' then TrimSlashes(s[..|s| - 1]) else s
  }

  function AfterLastSlash(s: string): string {
    if '/' !in s then s else AfterLastSlash(s[1..])
  }

  /** path.Base */
  function Base(s: string): string {
    if s == "" then "."
    else if TrimSlashes(s) == "" then "/"
    else AfterLastSlash(TrimSlashes(s))
  }

  predicate IsJunk(name: string) {
    JunkName(Base(Clean(name)))
  }

  /** A key whose last element is a junk name. */
  predicate JunkKey(p: Path) {
    p != [] && JunkName(p[|p| - 1])
  }

  // The test on names is a test on keys.

  lemma {:induction false} AfterLastSlashIs(s: string, seg: string)
    requires '/' !in seg
    ensures AfterLastSlash(s + "/" + seg) == seg
  {
    var t := s + "/" + seg;
    assert t[|s|] == '/';
    if s == "" {
      assert t[1..] == seg;
    } else {
      assert t[1..] == s[1..] + "/" + seg;
      AfterLastSlashIs(s[1..], seg);
    }
  }

  lemma BaseOfJoin(front: seq<string>, seg: string)
    requires seg != "" && '/' !in seg
    ensures Base(Join(front + [seg])) == Base("/" + Join(front + [seg])) == seg
  {
    var j := Join(front + [seg]);
    if front == [] {
      assert j == seg;
      AfterLastSlashIs("", seg);
      assert "/" + j == "" + "/" + seg;
    } else {
      JoinSnoc(front, seg);
      AfterLastSlashIs(Join(front), seg);
      AfterLastSlashIs("/" + Join(front), seg);
      assert "/" + j == ("/" + Join(front)) + "/" + seg;
    }
    assert j[|j| - 1] == seg[|seg| - 1] == ("/" + j)[|j|];
  }

  /** Cleaning a relative path keeps the ".." elements that cleaning the rooted path drops. */
  ghost predicate Climbs(relative: seq<string>, rooted: seq<string>) {
    && |rooted| <= |relative|
    && relative[|relative| - |rooted|..] == rooted
    && forall i | 0 <= i < |relative| - |rooted| :: relative[i] == ".."
  }

  lemma PushClimbs(was: seq<string>, r: seq<string>, seg: string)
    requires Climbs(was, r) && Canonical(r)
    ensures Climbs(Push(false, was, seg), Push(true, r, seg))
  {
    assert r != [] ==> was[|was| - 1] == r[|r| - 1] && Plain(r[|r| - 1]);
  }

  lemma {:induction false} RelativeClimbs(segs: seq<string>)
    requires forall seg | seg in segs :: '/' !in seg
    ensures Climbs(CleanSegs(false, segs), CleanSegs(true, segs))
  {
    if segs != [] {
      var front := segs[..|segs| - 1];
      assert forall s | s in front :: s in segs;
      RelativeClimbs(front);
      CleanIsCanonical(front);
      PushClimbs(CleanSegs(false, front), CleanSegs(true, front), segs[|segs| - 1]);
    }
  }

  lemma JunkRooted(key: Path)
    requires Canonical(key)
    ensures JunkName(Base("/" + Join(key))) <==> JunkKey(key)
  {
    if key == [] {
      assert TrimSlashes("/") == TrimSlashes("");
    } else {
      assert key == Parent(key) + [key[|key| - 1]] && Plain(key[|key| - 1]);
      BaseOfJoin(Parent(key), key[|key| - 1]);
    }
  }

  lemma JunkRelative(rel: seq<string>, key: Path)
    requires Canonical(key) && Climbs(rel, key) && rel != []
    ensures JunkName(Base(Join(rel))) <==> JunkKey(key)
  {
    var seg := rel[|rel| - 1];
    assert key == [] ==> seg == "..";
    assert !JunkName("..") by { assert ".."[1] == '.' && JUNK_PREFIX[1] == '_'; }
    assert key != [] ==> seg == key[|key| - 1] && Plain(seg);
    assert rel == rel[..|rel| - 1] + [seg];
    BaseOfJoin(rel[..|rel| - 1], seg);
  }

  /** The filter sees what the cache key sees: names with the same key are treated alike. */
  lemma JunkByKey(name: string)
    ensures IsJunk(name) <==> JunkKey(Key(name))
  {
    KeyIsCanonical(name);
    if Rooted(name) {
      JunkRooted(Key(name));
    } else {
      SplitNoSlash(name);
      RelativeClimbs(Split(name));
      var rel := CleanSegs(false, Split(name));
      if rel != [] {
        JunkRelative(rel, Key(name));
      }
    }
  }

  /** Wherever it stands, a name is junk if it is one of these ten or begins with these two characters. */
  lemma JunkNames(p: string, seg: string)
    requires Plain(seg)
    ensures IsJunk(p + "/" + seg) <==>
      || seg in [".DS_Store", ".Spotlight-V100", ".Trashes", ".TemporaryItems", ".fseventsd",
                 ".apdisk", ".localized", "$RECYCLE.BIN", "desktop.ini", "Thumbs.db"]
      || (|seg| >= 2 && seg[0] == '.' && seg[1] == '_')
  {
    PlainIsChild(p, seg);
    JunkByKey(p + "/" + seg);
  }

  /** For the name of a directory entry the test is on the name itself. */
  lemma JunkRow(name: string)
    requires Plain(name)
    ensures IsJunk(name) <==> JunkName(name)
  {
    JunkByKey(name);
    PlainKey(name);
  }

  // The guarded calls.

  datatype Call =
    | Mkdir(name: string)
    | OpenFile(name: string, flags: Flags)
    | Put(name: string, meta: int)
    | RemoveAll(name: string)
    | Rename(from: string, to: string)
    | Stat(name: string)

  datatype Reply = Done | Refused | Discarding | Saw(answer: Answer)

  datatype Result = Result(tree: Tree, reply: Reply)

  function Mark(ok: bool): Reply {
    if ok then Done else Refused
  }

  /** A call on the unfiltered file system; Put stands for a write through a handle opened under that name. */
  function Inner(t: Tree, c: Call, stamp: int): Result {
    match c
    case Mkdir(name) =>
      var p := Key(name);
      Result(Upstream.Mkdir(t, p, stamp), Mark(p != [] && p !in t && IsDir(t, Parent(p))))
    case OpenFile(name, flags) =>
      Result(Open(t, Key(name), flags, stamp), Mark(CanOpen(t, Key(name), flags)))
    case Put(name, meta) =>
      Result(Write(t, Key(name), meta), Mark(Key(name) in t && t[Key(name)].File?))
    case RemoveAll(name) =>
      Result(Upstream.RemoveAll(t, Key(name), stamp), Mark(Key(name) != []))
    case Rename(from, to) =>
      Result(Upstream.Rename(t, Key(from), Key(to), stamp), Mark(CanRename(t, Key(from), Key(to))))
    case Stat(name) =>
      Result(t, Saw(StatOf(t, Key(name))))
  }

  predicate NamesJunk(c: Call) {
    match c
    case Rename(from, to) => IsJunk(from) || IsJunk(to)
    case _ => IsJunk(c.name)
  }

  /** The same call through the filter. */
  function Filtered(t: Tree, c: Call, stamp: int): Result {
    if !NamesJunk(c) then Inner(t, c, stamp)
    else match c
      case Stat(_) => Result(t, Saw(Missing))
      case OpenFile(_, flags) => Result(t, if flags.Writable() then Discarding else Saw(Missing))
      case _ => Result(t, Done)
  }

  /**
  A call that names junk is swallowed: the disk stays as it is; what would change it is said to be done, or for a file
  opened for writing goes nowhere; and what would look finds nothing.
  */
  lemma JunkIsSwallowed(t: Tree, c: Call, stamp: int)
    requires NamesJunk(c)
    ensures Filtered(t, c, stamp).tree == t
    ensures c.Mkdir? || c.RemoveAll? || c.Rename? || c.Put? ==> Filtered(t, c, stamp).reply == Done
    ensures c.Stat? || (c.OpenFile? && !c.flags.wronly && !c.flags.rdwr) ==> Filtered(t, c, stamp).reply == Saw(Missing)
    ensures c.OpenFile? && (c.flags.wronly || c.flags.rdwr) ==> Filtered(t, c, stamp).reply == Discarding
  {
  }

  // The restriction.

  /** The part of the tree whose own names are not junk; what lies inside a junk directory stays reachable. */
  function Shown(t: Tree): Tree {
    map p | p in t && !JunkKey(p) :: t[p]
  }

  /** Making p would succeed only because its parent, a junk directory, exists behind the filter. */
  predicate UnderHidden(t: Tree, p: Path) {
    p != [] && p !in t && JunkKey(Parent(p)) && IsDir(t, Parent(p))
  }

  /** Every entry below b is junk, and there is one. */
  predicate OnlyClutter(t: Tree, b: Path) {
    (exists q | q in t :: b < q) && (forall q | q in t && b < q :: JunkKey(q))
  }

  predicate MayRename(t: Tree, a: Path, b: Path) {
    && a != [] && b != [] && a in t && !(a <= b) && !(b <= a) && IsDir(t, Parent(b))
    && (b in t ==> SameKind(t[a], t[b]))
  }

  /** The calls whose outcome does not hang on something the viewer cannot see. */
  predicate Unaffected(t: Tree, c: Call) {
    match c
    case Mkdir(name) => !UnderHidden(t, Key(name))
    case OpenFile(name, flags) => flags.create ==> !UnderHidden(t, Key(name))
    case Rename(from, to) =>
      var a, b := Key(from), Key(to);
      MayRename(t, a, b) ==>
        if JunkKey(Parent(b)) then b in t && !Bare(t, b) else b in t ==> !OnlyClutter(t, b)
    case _ => true
  }

  lemma ShownIn(t: Tree, p: Path)
    requires !JunkKey(p)
    ensures p in t <==> p in Shown(t)
    ensures p in t ==> Shown(t)[p] == t[p]
    ensures StatOf(t, p) == StatOf(Shown(t), p)
  {
  }

  lemma ShownTouch(t: Tree, p: Path, stamp: int)
    ensures Shown(Touch(t, p, stamp)) == Touch(Shown(t), p, stamp)
  {
  }

  lemma ShownUpdate(t: Tree, p: Path, node: Node)
    requires !JunkKey(p)
    ensures Shown(t[p := node]) == Shown(t)[p := node]
  {
  }

  lemma ShownWithout(t: Tree, p: Path)
    ensures Shown(Without(t, p)) == Without(Shown(t), p)
  {
  }

  lemma MovedJunk(a: Path, b: Path, q: Path)
    requires a != [] && b != [] && !JunkKey(a) && !JunkKey(b) && b <= q
    ensures JunkKey(a + q[|b|..]) <==> JunkKey(q)
  {
    var s := a + q[|b|..];
    if |q| > |b| {
      assert s[|s| - 1] == q[|q| - 1];
    } else {
      assert s == a && q == b;
    }
  }

  lemma ShownMovedAt(t: Tree, a: Path, b: Path, q: Path)
    requires a != [] && b != [] && !JunkKey(a) && !JunkKey(b)
    ensures var l, r := Shown(Moved(t, a, b)), Moved(Shown(t), a, b);
      (q in l <==> q in r) && (q in l ==> l[q] == r[q])
  {
    MovedHas(t, a, b, q);
    MovedHas(Shown(t), a, b, q);
    if b <= q { MovedJunk(a, b, q); }
  }

  lemma ShownMoved(t: Tree, a: Path, b: Path)
    requires a != [] && b != [] && !JunkKey(a) && !JunkKey(b)
    ensures Shown(Moved(t, a, b)) == Moved(Shown(t), a, b)
  {
    var l, r := Shown(Moved(t, a, b)), Moved(Shown(t), a, b);
    forall q
      ensures (q in l <==> q in r) && (q in l ==> l[q] == r[q])
    {
      ShownMovedAt(t, a, b, q);
    }
  }

  lemma ShownRename(t: Tree, a: Path, b: Path, stamp: int)
    requires !JunkKey(a) && !JunkKey(b) && CanRename(t, a, b) && CanRename(Shown(t), a, b)
    ensures Shown(Upstream.Rename(t, a, b, stamp)) == Upstream.Rename(Shown(t), a, b, stamp)
  {
    ShownWithout(t, a);
    ShownWithout(Without(t, a), b);
    ShownMoved(t, a, b);
    ShownJoin(Without(Without(t, a), b), Moved(t, a, b));
    var all := Without(Without(t, a), b) + Moved(t, a, b);
    ShownTouch(all, a, stamp);
    ShownTouch(Touch(all, a, stamp), b, stamp);
  }

  lemma ShownJoin(t: Tree, u: Tree)
    ensures Shown(t + u) == Shown(t) + Shown(u)
  {
  }

  lemma ShownMkdir(t: Tree, p: Path, node: Node, stamp: int)
    requires !JunkKey(p) && p != [] && !JunkKey(Parent(p))
    ensures Shown(Upstream.Put(t, p, node, stamp)) == Upstream.Put(Shown(t), p, node, stamp)
  {
    ShownTouch(t, p, stamp);
    ShownUpdate(Touch(t, p, stamp), p, node);
  }

  lemma ShownBare(t: Tree, b: Path)
    ensures Bare(Shown(t), b) <==> (Bare(t, b) || OnlyClutter(t, b))
  {
    if Bare(Shown(t), b) {
      forall q | q in t && b < q
        ensures JunkKey(q)
      {
        assert !JunkKey(q) ==> q in Shown(t);
      }
    }
  }

  lemma CanRenameShown(t: Tree, a: Path, b: Path)
    requires !JunkKey(a) && !JunkKey(b)
    ensures CanRename(Shown(t), a, b) <==>
      (MayRename(t, a, b) && !JunkKey(Parent(b)) && (b in t ==> Bare(t, b) || OnlyClutter(t, b)))
    ensures CanRename(t, a, b) <==> (MayRename(t, a, b) && (b in t ==> Bare(t, b)))
  {
    ShownIn(t, a);
    ShownIn(t, b);
    ShownBare(t, b);
  }

  /**
  A call on a name that is not junk acts on the shown tree as the file system without any filter would act on a tree
  without any junk, exactly when its outcome does not hang on something hidden: a junk parent directory, or junk left
  in the directory a rename would replace.
  */
  lemma FilterRestrictsExactly(t: Tree, c: Call, stamp: int)
    requires !NamesJunk(c)
    ensures (Inner(Shown(t), c, stamp) == Result(Shown(Inner(t, c, stamp).tree), Inner(t, c, stamp).reply))
        <==> Unaffected(t, c)
  {
    match c
    case Mkdir(name) =>
      var p := Key(name);
      JunkByKey(name);
      ShownIn(t, p);
      if p != [] && !JunkKey(Parent(p)) {
        ShownIn(t, Parent(p));
        ShownMkdir(t, p, Dir(stamp), stamp);
      }
    case OpenFile(name, flags) =>
      OpenRestricts(t, name, flags, stamp);
    case Put(name, meta) =>
      JunkByKey(name);
      ShownIn(t, Key(name));
      ShownUpdate(t, Key(name), File(meta));
    case RemoveAll(name) =>
      JunkByKey(name);
      ShownIn(t, Key(name));
      ShownWithout(t, Key(name));
      ShownTouch(Without(t, Key(name)), Key(name), stamp);
    case Rename(from, to) =>
      JunkByKey(from);
      JunkByKey(to);
      var a, b := Key(from), Key(to);
      CanRenameShown(t, a, b);
      if CanRename(t, a, b) && CanRename(Shown(t), a, b) { ShownRename(t, a, b, stamp); }
    case Stat(name) =>
      JunkByKey(name);
      ShownIn(t, Key(name));
  }

  lemma OpenRestricts(t: Tree, name: string, flags: Flags, stamp: int)
    requires !IsJunk(name)
    ensures var c := OpenFile(name, flags);
      (Inner(Shown(t), c, stamp) == Result(Shown(Inner(t, c, stamp).tree), Inner(t, c, stamp).reply))
        <==> Unaffected(t, c)
  {
    var p := Key(name);
    JunkByKey(name);
    ShownIn(t, p);
    ShownUpdate(t, p, File(stamp));
    if p != [] && !JunkKey(Parent(p)) {
      ShownIn(t, Parent(p));
      ShownMkdir(t, p, File(stamp), stamp);
    }
  }

  // Runs.

  datatype Timed = Timed(call: Call, stamp: int)

  datatype Trace = Trace(tree: Tree, replies: seq<Reply>)

  /** A run through the filter: the final tree, and the replies to the calls that name no junk. */
  function RunFiltered(t: Tree, run: seq<Timed>): Trace
    decreases |run|
  {
    if run == [] then Trace(t, [])
    else
      var r := Filtered(t, run[0].call, run[0].stamp);
      var rest := RunFiltered(r.tree, run[1..]);
      if NamesJunk(run[0].call) then rest else rest.(replies := [r.reply] + rest.replies)
  }

  function RunInner(t: Tree, run: seq<Timed>): Trace
    decreases |run|
  {
    if run == [] then Trace(t, [])
    else
      var r := Inner(t, run[0].call, run[0].stamp);
      var rest := RunInner(r.tree, run[1..]);
      rest.(replies := [r.reply] + rest.replies)
  }

  function Decent(run: seq<Timed>): seq<Timed> {
    if run == [] then []
    else if NamesJunk(run[0].call) then Decent(run[1..])
    else [run[0]] + Decent(run[1..])
  }

  ghost predicate AllUnaffected(t: Tree, run: seq<Timed>)
    decreases |run|
  {
    run == [] || (Unaffected(t, run[0].call) && AllUnaffected(Inner(t, run[0].call, run[0].stamp).tree, run[1..]))
  }

  /** Calls that name junk leave no trace: the disk and the other replies are those of the run without them. */
  lemma {:induction false} JunkLeavesNoTrace(t: Tree, run: seq<Timed>)
    ensures RunFiltered(t, run) == RunInner(t, Decent(run))
    decreases |run|
  {
    if run != [] {
      JunkLeavesNoTrace(Filtered(t, run[0].call, run[0].stamp).tree, run[1..]);
      if !NamesJunk(run[0].call) {
        assert Decent(run)[0] == run[0] && Decent(run)[1..] == Decent(run[1..]);
      }
    }
  }

  /**
  Through the filter a run shows what the same calls, the junk ones left out, would show on a disk that holds no junk:
  the same replies, and the shown part of the disk is that disk.
  */
  lemma FilteredRunIsRestriction(t: Tree, run: seq<Timed>)
    requires AllUnaffected(t, Decent(run))
    ensures var clean := RunInner(Shown(t), Decent(run));
      clean.replies == RunFiltered(t, run).replies && clean.tree == Shown(RunFiltered(t, run).tree)
  {
    JunkLeavesNoTrace(t, run);
    DecentIsClean(run);
    RestrictionRun(t, Decent(run));
  }

  ghost predicate NoneJunk(run: seq<Timed>) {
    forall c | c in run :: !NamesJunk(c.call)
  }

  lemma {:induction false} DecentIsClean(run: seq<Timed>)
    ensures NoneJunk(Decent(run))
  {
    if run != [] { DecentIsClean(run[1..]); }
  }

  lemma {:induction false} RestrictionRun(t: Tree, run: seq<Timed>)
    requires AllUnaffected(t, run) && NoneJunk(run)
    ensures RunInner(Shown(t), run) == Trace(Shown(RunInner(t, run).tree), RunInner(t, run).replies)
    decreases |run|
  {
    if run != [] {
      assert NoneJunk(run[1..]);
      FilterRestrictsExactly(t, run[0].call, run[0].stamp);
      RestrictionRun(Inner(t, run[0].call, run[0].stamp).tree, run[1..]);
    }
  }

  /** Two directories, the second with one junk file in it. */
  function Cluttered(a: string, b: string, junk: string): Tree {
    map[[] := Dir(0), [a] := Dir(0), [b] := Dir(0), [b, junk] := File(0)]
  }

  lemma ClutteredBlocks(a: string, b: string, junk: string)
    requires Plain(a) && Plain(b) && Plain(junk) && a != b && JunkName(junk)
    ensures var t := Cluttered(a, b, junk); Valid(t) && MayRename(t, [a], [b]) && !Bare(t, [b]) && OnlyClutter(t, [b])
  {
    assert Parent([b, junk]) == [b] && Parent([a]) == [] && Parent([b]) == [];
    assert [b] < [b, junk] && JunkKey([b, junk]);
    var t := Cluttered(a, b, junk);
    assert [a][0] != [b][0] && |[b, junk]| == 2;
    assert t[[]] == Dir(0) && t[[a]] == Dir(0) && t[[b]] == Dir(0);
    assert forall p | p in t :: p == [] || p == [a] || p == [b] || p == [b, junk];
    assert [b, junk] in t;
    assert !([a] <= [b]) && !([b] <= [a]) && !([b] < [a]);
    assert Canonical([]) && Canonical([a]) && Canonical([b]) && Canonical([b, junk]);
  }

  /** A directory that looks empty and cannot be replaced: the junk in it is hidden, and blocks the rename. */
  lemma HiddenJunkBlocksRename(a: string, b: string, junk: string, stamp: int)
    requires Plain(a) && Plain(b) && Plain(junk) && a != b && !JunkName(a) && !JunkName(b) && JunkName(junk)
    ensures var t, c := Cluttered(a, b, junk), Rename(a, b);
      && Valid(t) && !NamesJunk(c)
      && Inner(t, c, stamp).reply == Refused && Inner(Shown(t), c, stamp).reply == Done
  {
    PlainKey(a);
    PlainKey(b);
    JunkRow(a);
    JunkRow(b);
    ClutteredBlocks(a, b, junk);
    CanRenameShown(Cluttered(a, b, junk), [a], [b]);
  }

  // Listings.

  predicate Unwanted(e: Info) {
    IsJunk(e.name)
  }

  /** The elements that are not dropped, in their order. */
  function Keep<T>(drop: T -> bool, rows: seq<T>): seq<T> {
    if rows == [] then []
    else
      var n := |rows| - 1;
      if drop(rows[n]) then Keep(drop, rows[..n]) else Keep(drop, rows[..n]) + [rows[n]]
  }

  /** at lists the positions of the kept elements: increasing, and every position not dropped is there. */
  ghost predicate Picked<T>(drop: T -> bool, rows: seq<T>, kept: seq<T>, at: seq<nat>) {
    && |at| == |kept|
    && (forall i | 0 <= i < |at| :: at[i] < |rows| && rows[at[i]] == kept[i] && !drop(kept[i]))
    && (forall i, j | 0 <= i < j < |at| :: at[i] < at[j])
    && (forall k | 0 <= k < |rows| && !drop(rows[k]) :: k in at)
  }

  lemma PickedStep<T>(drop: T -> bool, rows: seq<T>, kept: seq<T>, at: seq<nat>, e: T)
    requires Picked(drop, rows, kept, at)
    ensures if drop(e) then Picked(drop, rows + [e], kept, at) else Picked(drop, rows + [e], kept + [e], at + [|rows|])
  {
    if !drop(e) {
      var now := at + [|rows|];
      assert forall k | k in at :: k in now;
      assert now[|at|] == |rows|;
    }
  }

  /** Compaction keeps exactly the elements not dropped, each once and in order. */
  lemma {:induction false} KeepPicks<T>(drop: T -> bool, rows: seq<T>) returns (at: seq<nat>)
    ensures Picked(drop, rows, Keep(drop, rows), at)
  {
    if rows == [] {
      return [];
    }
    var n := |rows| - 1;
    at := KeepPicks(drop, rows[..n]);
    PickedStep(drop, rows[..n], Keep(drop, rows[..n]), at, rows[n]);
    assert rows[..n] + [rows[n]] == rows;
    if !drop(rows[n]) {
      at := at + [n];
    }
  }

  /** A full listing read through the filter is the full listing of the shown tree. */
  lemma FilteredListing(t: Tree, p: Path, rows: seq<Info>)
    requires Valid(t) && Lists(t, p, rows)
    ensures Lists(Shown(t), p, Keep(Unwanted, rows))
  {
    var at := KeepPicks(Unwanted, rows);
    KeptAreShown(t, p, rows, Keep(Unwanted, rows), at);
    ShownAreKept(t, p, rows, Keep(Unwanted, rows), at);
  }

  lemma KeptAreShown(t: Tree, p: Path, rows: seq<Info>, kept: seq<Info>, at: seq<nat>)
    requires Valid(t) && Lists(t, p, rows) && Picked(Unwanted, rows, kept, at)
    ensures forall i | 0 <= i < |kept| :: StatOf(Shown(t), p + [kept[i].name]) == Found(kept[i])
    ensures forall i, j | 0 <= i < j < |kept| :: kept[i].name != kept[j].name
  {
    forall i | 0 <= i < |kept|
      ensures StatOf(Shown(t), p + [kept[i].name]) == Found(kept[i])
    {
      RowShown(t, p, rows, at[i]);
    }
    assert forall i, j | 0 <= i < j < |kept| :: at[i] < at[j] && rows[at[i]] == kept[i] && rows[at[j]] == kept[j];
  }

  lemma ShownAreKept(t: Tree, p: Path, rows: seq<Info>, kept: seq<Info>, at: seq<nat>)
    requires Valid(t) && Lists(t, p, rows) && Picked(Unwanted, rows, kept, at)
    ensures forall q | q in Shown(t) && q != [] && Parent(q) == p :: Names(kept, Last(q))
  {
    forall q | q in Shown(t) && q != [] && Parent(q) == p
      ensures Names(kept, Last(q))
    {
      ShownChildKept(t, p, rows, q, kept, at);
    }
  }

  lemma ShownChildKept(t: Tree, p: Path, rows: seq<Info>, q: Path, kept: seq<Info>, at: seq<nat>)
    requires Valid(t) && Lists(t, p, rows) && Picked(Unwanted, rows, kept, at)
    requires q in Shown(t) && q != [] && Parent(q) == p
    ensures Names(kept, Last(q))
  {
    var k := ChildRow(t, p, rows, q);
    RowShown(t, p, rows, k);
    assert k in at;
    var i :| 0 <= i < |at| && at[i] == k;
    assert kept[i].name == Last(q);
  }

  lemma ChildRow(t: Tree, p: Path, rows: seq<Info>, q: Path) returns (k: nat)
    requires Lists(t, p, rows) && q in t && q != [] && Parent(q) == p
    ensures k < |rows| && q == p + [rows[k].name]
  {
    k :| 0 <= k < |rows| && rows[k].name == Last(q);
  }

  lemma RowShown(t: Tree, p: Path, rows: seq<Info>, k: nat)
    requires Valid(t) && Lists(t, p, rows) && k < |rows|
    ensures if Unwanted(rows[k]) then p + [rows[k].name] !in Shown(t)
            else StatOf(Shown(t), p + [rows[k].name]) == Found(rows[k])
  {
    RowKey(t, p, rows, k);
  }

  lemma RowKey(t: Tree, p: Path, rows: seq<Info>, k: nat)
    requires Valid(t) && Lists(t, p, rows) && k < |rows|
    ensures JunkKey(p + [rows[k].name]) <==> IsJunk(rows[k].name)
    ensures StatOf(t, p + [rows[k].name]) == Found(rows[k])
  {
    var q := p + [rows[k].name];
    assert q in t && Canonical(q) && q[|q| - 1] in q;
    JunkRow(rows[k].name);
  }

  /** Readdir through the filter: a failed inner listing is passed on as it is, junk and all. */
  method FilterRows(entries: array<Info>, n: nat, failed: bool) returns (kept: nat)
    requires n <= entries.Length
    modifies entries
    ensures kept <= n
    ensures entries[..kept] == if failed then old(entries[..n]) else Keep(Unwanted, old(entries[..n]))
    ensures forall k | n <= k < entries.Length :: entries[k] == old(entries[k])
  {
    if failed {
      return n;
    }
    kept := 0;
    ghost var was := entries[..];
    for i := 0 to n
      invariant entries.Length == |was| && Compacted(Unwanted, entries[..], was, kept, i)
    {
      CompactStep(Unwanted, entries[..], was, kept, i);
      var e := entries[i];
      if !Unwanted(e) {
        entries[kept] := e;
        kept := kept + 1;
      }
    }
    assert was[..n] == old(entries[..n]);
  }

  /** The first i rows have been looked at, and the kept ones of them moved to the front. */
  ghost predicate Compacted<T>(drop: T -> bool, now: seq<T>, was: seq<T>, kept: nat, i: nat) {
    && kept <= i <= |was| == |now|
    && now[..kept] == Keep(drop, was[..i])
    && forall k | i <= k < |was| :: now[k] == was[k]
  }

  lemma CompactStep<T>(drop: T -> bool, now: seq<T>, was: seq<T>, kept: nat, i: nat)
    requires Compacted(drop, now, was, kept, i) && i < |was|
    ensures if drop(now[i]) then Compacted(drop, now, was, kept, i + 1)
            else Compacted(drop, now[kept := now[i]], was, kept + 1, i + 1)
  {
    assert was[..i + 1][..i] == was[..i];
    assert now[kept := now[i]][..kept + 1] == now[..kept] + [now[i]];
  }
}
