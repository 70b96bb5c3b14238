/** With every edit made through the cache, what it answers is what the upstream would answer now. */
module CacheTransparency {
  import opened Wrappers
  import opened Paths
  import opened Upstream
  import opened Cache

  /** Paths with an open writable handle. */
  function Dirty(fs: Fs): set<Path> {
    set id | id in fs.handles && fs.handles[id].writable :: fs.handles[id].path
  }

  /** An answer with the right kind, though perhaps old size and times. */
  predicate Loose(a: Answer, b: Answer) {
    (a.Found? <==> b.Found?) && (a.Found? ==> a.info.name == b.info.name && SameKind(a.info.node, b.info.node))
  }

  predicate StatOk(t: Tree, dirty: set<Path>, p: Path, a: Answer) {
    Loose(a, StatOf(t, p)) && (p !in dirty ==> a == StatOf(t, p))
  }

  /** One row: directories by name and kind, files exactly unless they are being written. */
  predicate RowOk(t: Tree, dirty: set<Path>, p: Path, row: Info) {
    var c := p + [row.name];
    c in t && SameKind(row.node, t[c]) && (row.node.File? && c !in dirty ==> row.node == t[c])
  }

  /** A listing is complete, without repetition, and every row is right; at a path that is no directory it is empty. */
  ghost predicate DirOk(t: Tree, dirty: set<Path>, p: Path, rows: seq<Info>) {
    && (!IsDir(t, p) ==> rows == [])
    && (forall i, j | 0 <= i < j < |rows| :: rows[i].name != rows[j].name)
    && (forall i | 0 <= i < |rows| :: RowOk(t, dirty, p, rows[i]))
    && (forall q | q in t && q != [] && Parent(q) == p :: Names(rows, Last(q)))
  }

  /** Everything cached is right of the tree. */
  ghost predicate Current(fs: Fs) {
    && (forall p | p in fs.stats :: StatOk(fs.tree, Dirty(fs), p, fs.stats[p].answer))
    && (forall p | p in fs.readdir :: DirOk(fs.tree, Dirty(fs), p, fs.readdir[p].listing.rows))
  }

  ghost predicate Faithful(fs: Fs) {
    Valid(fs.tree) && Current(fs)
  }

  /** A file open for writing still has the name it was opened under, or none. */
  ghost predicate Anchored(fs: Fs) {
    forall id | id in fs.handles && fs.handles[id].writable ::
      fs.handles[id].at.Some? ==> fs.handles[id].at.value == fs.handles[id].path
  }

  /** Where an open file is, something exists, and what is open for writing is a file. */
  predicate Stands(t: Tree, h: Handle) {
    h.at.Some? ==> h.at.value in t && (h.writable ==> t[h.at.value].File?)
  }

  ghost predicate Placed(fs: Fs) {
    forall id | id in fs.handles :: Stands(fs.tree, fs.handles[id])
  }

  /** What the calls keep, on any tree whatever. */
  ghost predicate Right(fs: Fs) {
    Current(fs) && Anchored(fs) && Placed(fs)
  }

  ghost predicate Sound(fs: Fs) {
    Valid(fs.tree) && Right(fs)
  }

  // ------------------------------------------------------------------------------------------------------------
  // One edit
  // ------------------------------------------------------------------------------------------------------------

  lemma EditStat(t: Tree, u: Tree, p: Path, dirty: set<Path>, q: Path, a: Answer)
    requires LeafEdit(t, u, p) && StatOk(t, dirty, q, a) && q != p && q != Parent(p)
    ensures StatOk(u, dirty, q, a)
  {
  }

  lemma EditRow(t: Tree, u: Tree, p: Path, dirty: set<Path>, q: Path, row: Info)
    requires t != u && LeafEdit(t, u, p) && RowOk(t, dirty, q, row) && q != Parent(p)
    ensures q != p && RowOk(u, dirty, q, row)
  {
    var c := q + [row.name];
    assert Parent(c) == q && c != [];
  }

  lemma EditRows(t: Tree, u: Tree, p: Path, dirty: set<Path>, q: Path, rows: seq<Info>)
    requires t != u && LeafEdit(t, u, p) && DirOk(t, dirty, q, rows) && q != Parent(p)
    ensures forall i | 0 <= i < |rows| :: RowOk(u, dirty, q, rows[i])
    ensures !IsDir(u, q) ==> rows == []
  {
    forall i | 0 <= i < |rows|
      ensures q != p && RowOk(u, dirty, q, rows[i])
    {
      EditRow(t, u, p, dirty, q, rows[i]);
    }
    if rows != [] {
      assert RowOk(u, dirty, q, rows[0]);
    }
  }

  lemma EditDir(t: Tree, u: Tree, p: Path, dirty: set<Path>, q: Path, rows: seq<Info>)
    requires LeafEdit(t, u, p) && DirOk(t, dirty, q, rows) && q != Parent(p)
    ensures DirOk(u, dirty, q, rows)
  {
    if t != u {
      EditRows(t, u, p, dirty, q, rows);
      forall c | c in u && c != [] && Parent(c) == q
        ensures Names(rows, Last(c))
      {
        assert c in t;
      }
    }
  }

  /** What invalidate drops is enough: after an edit at p, everything still cached is right of the new tree. */
  lemma EditKeeps(fs: Fs, u: Tree, p: Path)
    requires Current(fs) && LeafEdit(fs.tree, u, p)
    ensures Current(Invalidate(fs.(tree := u), p))
  {
    var g := Invalidate(fs.(tree := u), p);
    forall q | q in g.stats
      ensures StatOk(u, Dirty(g), q, g.stats[q].answer)
    {
      EditStat(fs.tree, u, p, Dirty(fs), q, fs.stats[q].answer);
    }
    forall q | q in g.readdir
      ensures DirOk(u, Dirty(g), q, g.readdir[q].listing.rows)
    {
      EditDir(fs.tree, u, p, Dirty(fs), q, fs.readdir[q].listing.rows);
    }
  }

  /** Moving file positions around, or opening more files for writing, leaves every cached answer right. */
  lemma HandlesKeep(fs: Fs, handles: map<nat, Handle>)
    requires Current(fs) && Dirty(fs) <= Dirty(fs.(handles := handles))
    ensures Current(fs.(handles := handles))
  {
  }

  lemma DirtyGrows(fs: Fs, handles: map<nat, Handle>)
    requires forall id | id in fs.handles :: id in handles && handles[id] == fs.handles[id]
    ensures Dirty(fs) <= Dirty(fs.(handles := handles))
  {
    forall p | p in Dirty(fs)
      ensures p in Dirty(fs.(handles := handles))
    {
      var id :| id in fs.handles && fs.handles[id].writable && fs.handles[id].path == p;
      assert handles[id] == fs.handles[id];
    }
  }

  // ------------------------------------------------------------------------------------------------------------
  // The calls
  // ------------------------------------------------------------------------------------------------------------

  lemma MkdirKeeps(fs: Fs, p: Path, stamp: int)
    requires Current(fs) && Clear(fs.tree, p)
    ensures Current(DoMkdir(fs, p, stamp))
  {
    MkdirIsLeafEdit(fs.tree, p, stamp);
    EditKeeps(fs, Mkdir(fs.tree, p, stamp), p);
  }

  lemma RemoveKeeps(fs: Fs, p: Path, stamp: int)
    requires Current(fs) && (p != [] && p in fs.tree ==> Bare(fs.tree, p))
    ensures Current(DoRemoveAll(fs, p, stamp))
  {
    if p != [] && p in fs.tree { RemoveIsLeafEdit(fs.tree, p, stamp); }
    var u := RemoveAll(fs.tree, p, stamp);
    EditKeeps(fs, u, p);
    var g := DoRemoveAll(fs, p, stamp);
    assert g == Invalidate(fs.(tree := u), p).(handles := g.handles);
    HandlesKeep(Invalidate(fs.(tree := u), p), g.handles) by { SameDirty(fs, g); }
  }

  lemma RemoveStands(t: Tree, p: Path, stamp: int, h: Handle)
    requires Stands(t, h) && p != [] && p in t
    ensures Stands(RemoveAll(t, p, stamp), Unlinked(h, p))
  {
  }

  lemma RemoveKeepsRight(fs: Fs, p: Path, stamp: int)
    requires Right(fs) && (p != [] && p in fs.tree ==> Bare(fs.tree, p))
    ensures Right(DoRemoveAll(fs, p, stamp))
  {
    RemoveKeeps(fs, p, stamp);
    var g := DoRemoveAll(fs, p, stamp);
    forall id | id in g.handles
      ensures Stands(g.tree, g.handles[id])
    {
      if p != [] && p in fs.tree { RemoveStands(fs.tree, p, stamp, fs.handles[id]); }
    }
  }

  /** The set of dirty paths depends on the open files only by name. */
  lemma SameDirty(fs: Fs, g: Fs)
    requires g.handles.Keys == fs.handles.Keys
    requires forall id | id in fs.handles ::
      g.handles[id].path == fs.handles[id].path && g.handles[id].writable == fs.handles[id].writable
    ensures Dirty(g) == Dirty(fs)
  {
    forall p | p in Dirty(fs)
      ensures p in Dirty(g)
    {
      var id :| id in fs.handles && fs.handles[id].writable && fs.handles[id].path == p;
      assert g.handles[id].writable && g.handles[id].path == p;
    }
    forall p | p in Dirty(g)
      ensures p in Dirty(fs)
    {
      var id :| id in g.handles && g.handles[id].writable && g.handles[id].path == p;
      assert fs.handles[id].writable && fs.handles[id].path == p;
    }
  }

  /** No file at a is open for writing. */
  ghost predicate Settled(fs: Fs, a: Path) {
    forall id | id in fs.handles && fs.handles[id].writable :: fs.handles[id].at != Some(a)
  }

  lemma TargetIsBare(t: Tree, a: Path, b: Path)
    requires Clear(t, b) && CanRename(t, a, b)
    ensures Bare(t, b)
  {
  }

  lemma RenameKeeps(fs: Fs, a: Path, b: Path, stamp: int)
    requires Current(fs) && Clear(fs.tree, b) && (CanRename(fs.tree, a, b) ==> Bare(fs.tree, a))
    ensures Current(DoRename(fs, a, b, stamp))
  {
    var t, u, g := fs.tree, Rename(fs.tree, a, b, stamp), DoRename(fs, a, b, stamp);
    var mid := if CanRename(t, a, b) then RemoveAll(t, a, stamp) else t;
    if CanRename(t, a, b) {
      TargetIsBare(t, a, b);
      RenameIsTwoLeafEdits(t, a, b, stamp);
    }
    TwoEditsKeep(fs, mid, a, u, b);
    RenameDrops(fs, a, b, stamp, mid);
    SameDirty(fs, g);
    HandlesKeep(Invalidate(Invalidate(fs.(tree := mid), a).(tree := u), b), g.handles);
  }

  lemma TwoEditsKeep(fs: Fs, mid: Tree, a: Path, u: Tree, b: Path)
    requires Current(fs) && LeafEdit(fs.tree, mid, a) && LeafEdit(mid, u, b)
    ensures Current(Invalidate(Invalidate(fs.(tree := mid), a).(tree := u), b))
  {
    EditKeeps(fs, mid, a);
    EditKeeps(Invalidate(fs.(tree := mid), a), u, b);
  }

  lemma RenameDrops(fs: Fs, a: Path, b: Path, stamp: int, mid: Tree)
    ensures var u, g := Rename(fs.tree, a, b, stamp), DoRename(fs, a, b, stamp);
      g == Invalidate(Invalidate(fs.(tree := mid), a).(tree := u), b).(handles := g.handles)
  {
  }

  lemma RelocatedLeaf(t: Tree, a: Path, b: Path, h: Handle)
    requires Bare(t, a) && Bare(t, b) && (h.at.Some? ==> h.at.value in t)
    ensures Relocated(h, a, b)
      == h.(at := if h.at == Some(a) then Some(b) else if h.at == Some(b) then None else h.at)
  {
    OnlyItself(t, a);
    OnlyItself(t, b);
    assert a[|a|..] == [] && b + [] == b;
  }

  lemma PutElsewhere(t: Tree, b: Path, node: Node, stamp: int, q: Path)
    requires q in t && t[q].File? && q != b
    ensures q in Put(t, b, node, stamp) && Put(t, b, node, stamp)[q] == t[q]
  {
  }

  lemma RemovedElsewhere(t: Tree, a: Path, stamp: int, q: Path)
    requires Bare(t, a) && a in t && a != [] && q in t && q != a
    ensures q in RemoveAll(t, a, stamp) && (t[q].File? ==> RemoveAll(t, a, stamp)[q] == t[q])
  {
    WithoutLeaf(t, a);
  }

  lemma RenameStands(t: Tree, a: Path, b: Path, stamp: int, h: Handle)
    requires CanRename(t, a, b) && Bare(t, a) && Bare(t, b) && Stands(t, h)
    ensures Stands(Rename(t, a, b, stamp), Relocated(h, a, b))
  {
    RelocatedLeaf(t, a, b, h);
    RenameIsPut(t, a, b, stamp);
    if h.at.Some? && h.at.value != a && h.at.value != b {
      var q := h.at.value;
      RemovedElsewhere(t, a, stamp, q);
      if t[q].File? { PutElsewhere(RemoveAll(t, a, stamp), b, t[a], stamp, q); }
    }
  }

  lemma RenamePlaces(fs: Fs, a: Path, b: Path, stamp: int)
    requires Clear(fs.tree, b) && Placed(fs) && CanRename(fs.tree, a, b) && Bare(fs.tree, a)
    ensures Placed(DoRename(fs, a, b, stamp))
  {
    TargetIsBare(fs.tree, a, b);
    var g := DoRename(fs, a, b, stamp);
    forall id | id in g.handles
      ensures Stands(g.tree, g.handles[id])
    {
      RenameStands(fs.tree, a, b, stamp, fs.handles[id]);
    }
  }

  lemma RelocatesAll(fs: Fs, a: Path, b: Path, stamp: int)
    requires Clear(fs.tree, b) && Placed(fs) && CanRename(fs.tree, a, b) && Bare(fs.tree, a)
    ensures var g := DoRename(fs, a, b, stamp);
      g.handles.Keys == fs.handles.Keys && forall id | id in fs.handles :: Landed(fs.handles[id], g.handles[id], a, b)
  {
    TargetIsBare(fs.tree, a, b);
    forall id | id in fs.handles
      ensures Landed(fs.handles[id], Relocated(fs.handles[id], a, b), a, b)
    {
      RelocatedLeaf(fs.tree, a, b, fs.handles[id]);
    }
  }

  /** The handle after an a with nothing below it was renamed to b. */
  predicate Landed(h: Handle, h': Handle, a: Path, b: Path) {
    h' == h.(at := if h.at == Some(a) then Some(b) else if h.at == Some(b) then None else h.at)
  }

  /** A rename keeps open files anchored exactly when the renamed file is not open for writing. */
  lemma RenameAnchors(fs: Fs, a: Path, b: Path, stamp: int)
    requires Clear(fs.tree, b) && Anchored(fs) && Placed(fs) && CanRename(fs.tree, a, b) && Bare(fs.tree, a)
    ensures Anchored(DoRename(fs, a, b, stamp)) <==> Settled(fs, a)
  {
    var g := DoRename(fs, a, b, stamp);
    RelocatesAll(fs, a, b, stamp);
    if id :| id in fs.handles && fs.handles[id].writable && fs.handles[id].at == Some(a) {
      assert g.handles[id].path == a && g.handles[id].writable && g.handles[id].at == Some(b);
    }
  }

  lemma StatKeeps(fs: Fs, p: Path, now: int)
    requires Current(fs)
    ensures Current(DoStat(fs, p, now))
  {
  }

  lemma OpenKeepsCurrent(fs: Fs, id: nat, p: Path, f: Flags, stamp: int)
    requires Current(fs) && Clear(fs.tree, p) && IsDir(fs.tree, []) && id !in fs.handles
    ensures Current(DoOpen(fs, id, p, f, stamp))
  {
    var u, g := Open(fs.tree, p, f, stamp), DoOpen(fs, id, p, f, stamp);
    OpenIsLeafEdit(fs.tree, p, f, stamp);
    EditKeeps(fs, u, p);
    var h := if f.Any() then Invalidate(fs.(tree := u), p) else fs;
    assert g == h.(handles := g.handles);
    DirtyGrows(h, g.handles);
    HandlesKeep(h, g.handles);
  }

  lemma OpenKeeps(fs: Fs, id: nat, p: Path, f: Flags, stamp: int)
    requires Right(fs) && Clear(fs.tree, p) && IsDir(fs.tree, []) && id !in fs.handles
    ensures Right(DoOpen(fs, id, p, f, stamp))
  {
    OpenKeepsCurrent(fs, id, p, f, stamp);
    var g := DoOpen(fs, id, p, f, stamp);
    forall k | k in g.handles
      ensures Stands(g.tree, g.handles[k])
    {
      OpenStands(fs.tree, p, f, stamp, if k in fs.handles then fs.handles[k] else Handle(p, None, false, false));
    }
  }

  lemma OpenStands(t: Tree, p: Path, f: Flags, stamp: int, h: Handle)
    requires Stands(t, h)
    ensures Stands(Open(t, p, f, stamp), h)
    ensures CanOpen(t, p, f) ==> Stands(Open(t, p, f, stamp), Handle(p, Some(p), f.Writable(), false))
  {
  }

  /** Writing through an anchored handle touches only a dirty file. */
  lemma WriteKeeps(fs: Fs, id: nat, meta: int)
    requires Right(fs) && id in fs.handles
    ensures Right(DoWrite(fs, id, meta))
  {
    var h := fs.handles[id];
    if h.writable && h.at.Some? {
      var g := DoWrite(fs, id, meta);
      assert h.path in Dirty(fs);
      forall p | p in g.stats
        ensures StatOk(g.tree, Dirty(g), p, g.stats[p].answer)
      {
        assert StatOk(fs.tree, Dirty(fs), p, fs.stats[p].answer);
      }
      forall p | p in g.readdir
        ensures DirOk(g.tree, Dirty(g), p, g.readdir[p].listing.rows)
      {
        WriteDir(fs.tree, h.path, meta, Dirty(fs), p, fs.readdir[p].listing.rows);
      }
    }
  }

  lemma WriteDir(t: Tree, w: Path, meta: int, dirty: set<Path>, p: Path, rows: seq<Info>)
    requires DirOk(t, dirty, p, rows) && w in dirty
    ensures DirOk(Write(t, w, meta), dirty, p, rows)
  {
    forall i | 0 <= i < |rows|
      ensures RowOk(Write(t, w, meta), dirty, p, rows[i])
    {
      assert RowOk(t, dirty, p, rows[i]);
    }
  }

  /** Closing a handle makes its path exact again, because invalidate drops every entry that mentions it. */
  lemma CloseKeeps(fs: Fs, id: nat, flush: Option<int>)
    requires Right(fs) && id in fs.handles
    ensures Right(DoClose(fs, id, flush))
  {
    var mid := if flush.Some? then DoWrite(fs, id, flush.value) else fs;
    if flush.Some? { WriteKeeps(fs, id, flush.value); }
    var p, g := fs.handles[id].path, DoClose(fs, id, flush);
    forall q | q in Dirty(mid) && (q != p || !fs.handles[id].writable)
      ensures q in Dirty(g)
    {
      var k :| k in mid.handles && mid.handles[k].writable && mid.handles[k].path == q;
      assert k in g.handles;
    }
    forall q | q in g.stats
      ensures StatOk(g.tree, Dirty(g), q, g.stats[q].answer)
    {
      assert StatOk(mid.tree, Dirty(mid), q, mid.stats[q].answer);
    }
    forall q | q in g.readdir
      ensures DirOk(g.tree, Dirty(g), q, g.readdir[q].listing.rows)
    {
      var rows := mid.readdir[q].listing.rows;
      assert DirOk(mid.tree, Dirty(mid), q, rows);
      forall i | 0 <= i < |rows|
        ensures RowOk(g.tree, Dirty(g), q, rows[i])
      {
        assert RowOk(mid.tree, Dirty(mid), q, rows[i]);
        assert Parent(q + [rows[i].name]) == q;
      }
    }
  }

  lemma {:induction false} SeedIs(stats: map<Path, StatEntry>, p: Path, rows: seq<Info>, expires: int)
    ensures forall q | q in Seed(stats, p, rows, expires) ::
      (q in stats && Seed(stats, p, rows, expires)[q] == stats[q])
      || exists i :: 0 <= i < |rows| && q == p + [rows[i].name]
                     && Seed(stats, p, rows, expires)[q] == StatEntry(Found(rows[i]), expires)
  {
    if rows != [] {
      var n := |rows| - 1;
      SeedIs(stats, p, rows[..n], expires);
      forall q | q in Seed(stats, p, rows, expires)
        ensures (q in stats && Seed(stats, p, rows, expires)[q] == stats[q])
          || exists i :: 0 <= i < |rows| && q == p + [rows[i].name]
                         && Seed(stats, p, rows, expires)[q] == StatEntry(Found(rows[i]), expires)
      {
        if q == p + [rows[n].name] {
          assert 0 <= n < |rows| && q == p + [rows[n].name];
        } else if !(q in stats && Seed(stats, p, rows[..n], expires)[q] == stats[q]) {
          var i :| 0 <= i < n && q == p + [rows[..n][i].name]
                   && Seed(stats, p, rows[..n], expires)[q] == StatEntry(Found(rows[..n][i]), expires);
          assert rows[..n][i] == rows[i];
        }
      }
    }
  }

  lemma ListsIsDirOk(t: Tree, dirty: set<Path>, p: Path, rows: seq<Info>)
    requires IsDir(t, p) && Lists(t, p, rows)
    ensures DirOk(t, dirty, p, rows)
  {
    forall i | 0 <= i < |rows|
      ensures RowOk(t, dirty, p, rows[i])
    {
      assert StatOf(t, p + [rows[i].name]) == Found(rows[i]);
    }
  }

  lemma SeedKeeps(t: Tree, dirty: set<Path>, stats: map<Path, StatEntry>, p: Path, rows: seq<Info>, expires: int)
    requires Lists(t, p, rows) && forall q | q in stats :: StatOk(t, dirty, q, stats[q].answer)
    ensures forall q | q in Seed(stats, p, rows, expires) ::
      StatOk(t, dirty, q, Seed(stats, p, rows, expires)[q].answer)
  {
    SeedIs(stats, p, rows, expires);
    forall q | q in Seed(stats, p, rows, expires)
      ensures StatOk(t, dirty, q, Seed(stats, p, rows, expires)[q].answer)
    {
      var e := Seed(stats, p, rows, expires)[q];
      if !(q in stats && e == stats[q]) {
        var i :| 0 <= i < |rows| && q == p + [rows[i].name] && e == StatEntry(Found(rows[i]), expires);
        assert StatOf(t, q) == Found(rows[i]);
      }
    }
  }

  /** The handle is still at the path it was opened under, and if it has been drained its listing is cached. */
  predicate Straight(fs: Fs, id: nat, now: int)
    requires id in fs.handles
  {
    var h := fs.handles[id];
    h.at == Some(h.path) && (DirHit(fs, h.path, now) || !h.drained)
  }

  lemma ReaddirKeeps(fs: Fs, id: nat, now: int, up: Option<Listing>)
    requires Current(fs) && id in fs.handles && UpstreamLists(fs, id, up) && Straight(fs, id, now)
    ensures Current(DoReaddir(fs, id, now, up))
  {
    var p, g := fs.handles[id].path, DoReaddir(fs, id, now, up);
    SameDirty(fs, g);
    if !DirHit(fs, p, now) && up.Some? {
      ListsIsDirOk(fs.tree, Dirty(fs), p, up.value.rows);
      SeedKeeps(fs.tree, Dirty(fs), fs.stats, p, up.value.rows, now + TTL);
    }
  }

  // ------------------------------------------------------------------------------------------------------------
  // Whole runs
  // ------------------------------------------------------------------------------------------------------------

  /** A call as the WebDAV handler makes it; names are as received. */
  datatype Op =
    | MkdirOp(name: string, stamp: int)
    | RemoveOp(name: string, stamp: int)
    | RenameOp(oldName: string, newName: string, stamp: int)
    | StatOp(name: string, now: int)
    | OpenOp(id: nat, name: string, flags: Flags, stamp: int)
    | WriteOp(id: nat, meta: int)
    | CloseOp(id: nat, flush: Option<int>)
    | ReaddirOp(id: nat, now: int, up: Option<Listing>)

  /** Handles are open when used and new when opened, and the upstream file answers as an upstream file does. */
  ghost predicate Possible(fs: Fs, op: Op) {
    match op
    case OpenOp(id, _, _, _) => id !in fs.handles
    case WriteOp(id, _) => id in fs.handles
    case CloseOp(id, _) => id in fs.handles
    case ReaddirOp(id, _, up) => id in fs.handles && UpstreamLists(fs, id, up)
    case _ => true
  }

  function Apply(fs: Fs, op: Op): Fs {
    match op
    case MkdirOp(n, stamp) => DoMkdir(fs, Key(n), stamp)
    case RemoveOp(n, stamp) => DoRemoveAll(fs, Key(n), stamp)
    case RenameOp(a, b, stamp) => DoRename(fs, Key(a), Key(b), stamp)
    case StatOp(n, now) => DoStat(fs, Key(n), now)
    case OpenOp(id, n, f, stamp) => DoOpen(fs, id, Key(n), f, stamp)
    case WriteOp(id, meta) => if id in fs.handles then DoWrite(fs, id, meta) else fs
    case CloseOp(id, flush) => if id in fs.handles then DoClose(fs, id, flush) else fs
    case ReaddirOp(id, now, up) => if id in fs.handles then DoReaddir(fs, id, now, up) else fs
  }

  /**
  What the cache relies on: no subtree is removed or renamed, no file open for writing is renamed, and a directory is
  listed through a handle that is still where it was opened and has not been drained.
  */
  ghost predicate InScope(fs: Fs, op: Op) {
    match op
    case RemoveOp(n, _) => Key(n) != [] && Key(n) in fs.tree ==> Bare(fs.tree, Key(n))
    case RenameOp(a, b, _) =>
      CanRename(fs.tree, Key(a), Key(b)) ==> Bare(fs.tree, Key(a)) && Settled(fs, Key(a))
    case ReaddirOp(id, now, _) => id in fs.handles ==> Straight(fs, id, now)
    case _ => true
  }

  /** Where a call may make something, nothing stands below yet, unless a directory is there. */
  predicate Clears(t: Tree, op: Op) {
    match op
    case MkdirOp(n, _) => Clear(t, Key(n))
    case RenameOp(_, b, _) => Clear(t, Key(b))
    case OpenOp(_, n, _, _) => Clear(t, Key(n))
    case _ => true
  }

  lemma RenameNames(fs: Fs, a: string, b: string, stamp: int)
    requires Right(fs) && Clear(fs.tree, Key(b)) && InScope(fs, RenameOp(a, b, stamp))
    ensures Right(DoRename(fs, Key(a), Key(b), stamp))
  {
    RenameKeeps(fs, Key(a), Key(b), stamp);
    if CanRename(fs.tree, Key(a), Key(b)) {
      RenameAnchors(fs, Key(a), Key(b), stamp);
      RenamePlaces(fs, Key(a), Key(b), stamp);
    }
  }

  lemma ReaddirKeepsRight(fs: Fs, id: nat, now: int, up: Option<Listing>)
    requires Right(fs) && id in fs.handles && UpstreamLists(fs, id, up) && Straight(fs, id, now)
    ensures Right(DoReaddir(fs, id, now, up))
  {
    ReaddirKeeps(fs, id, now, up);
  }

  lemma MkdirKeepsRight(fs: Fs, p: Path, stamp: int)
    requires Right(fs) && Clear(fs.tree, p)
    ensures Right(DoMkdir(fs, p, stamp))
  {
    MkdirKeeps(fs, p, stamp);
  }

  lemma ApplyKeeps(fs: Fs, op: Op)
    requires Right(fs) && Clears(fs.tree, op) && IsDir(fs.tree, []) && Possible(fs, op) && InScope(fs, op)
    ensures Right(Apply(fs, op))
  {
    match op
    case MkdirOp(n, stamp) => MkdirKeepsRight(fs, Key(n), stamp);
    case RemoveOp(n, stamp) => RemoveKeepsRight(fs, Key(n), stamp);
    case RenameOp(a, b, stamp) => RenameNames(fs, a, b, stamp);
    case StatOp(n, now) => StatKeeps(fs, Key(n), now);
    case OpenOp(id, n, f, stamp) => OpenKeeps(fs, id, Key(n), f, stamp);
    case WriteOp(id, meta) => WriteKeeps(fs, id, meta);
    case CloseOp(id, flush) => CloseKeeps(fs, id, flush);
    case ReaddirOp(id, now, up) => ReaddirKeepsRight(fs, id, now, up);
  }

  /** The upstream calls keep a file system's tree one, whatever the name. */
  lemma CallsAreValid(t: Tree, name: string)
    requires Valid(t)
    ensures forall stamp :: Valid(Mkdir(t, Key(name), stamp))
    ensures forall f, stamp :: Valid(Open(t, Key(name), f, stamp))
    ensures forall stamp :: Valid(RemoveAll(t, Key(name), stamp))
    ensures forall a, stamp :: Valid(Rename(t, a, Key(name), stamp))
  {
    KeyIsCanonical(name);
    forall stamp { MkdirIsValid(t, Key(name), stamp); }
    forall f, stamp { OpenIsValid(t, Key(name), f, stamp); }
    forall stamp { RemoveIsValid(t, Key(name), stamp); }
    forall a, stamp { RenameIsValid(t, a, Key(name), stamp); }
  }

  lemma HandleWriteIsValid(fs: Fs, id: nat, meta: int)
    requires Valid(fs.tree) && id in fs.handles
    ensures Valid(DoWrite(fs, id, meta).tree)
  {
    if fs.handles[id].at.Some? { WriteIsValid(fs.tree, fs.handles[id].at.value, meta); }
  }

  lemma HandleOpIsValid(fs: Fs, op: Op)
    requires Valid(fs.tree) && (op.WriteOp? || op.CloseOp?)
    ensures Valid(Apply(fs, op).tree)
  {
    match op
    case WriteOp(id, meta) => if id in fs.handles { HandleWriteIsValid(fs, id, meta); }
    case CloseOp(id, flush) => if id in fs.handles && flush.Some? { HandleWriteIsValid(fs, id, flush.value); }
  }

  lemma ApplyIsValid(fs: Fs, op: Op)
    requires Valid(fs.tree)
    ensures Valid(Apply(fs, op).tree)
  {
    match op
    case MkdirOp(n, _) => CallsAreValid(fs.tree, n);
    case RemoveOp(n, _) => CallsAreValid(fs.tree, n);
    case RenameOp(_, b, _) => CallsAreValid(fs.tree, b);
    case OpenOp(_, n, _, _) => CallsAreValid(fs.tree, n);
    case WriteOp(_, _) => HandleOpIsValid(fs, op);
    case CloseOp(_, _) => HandleOpIsValid(fs, op);
    case _ =>
  }

  lemma ValidClears(t: Tree, op: Op)
    requires Valid(t)
    ensures Clears(t, op)
  {
    match op
    case MkdirOp(n, _) => ValidIsClear(t, Key(n));
    case RenameOp(_, b, _) => ValidIsClear(t, Key(b));
    case OpenOp(_, n, _, _) => ValidIsClear(t, Key(n));
    case _ =>
  }

  lemma SoundStep(fs: Fs, op: Op)
    requires Sound(fs) && Possible(fs, op) && InScope(fs, op)
    ensures Sound(Apply(fs, op))
  {
    ValidClears(fs.tree, op);
    ApplyKeeps(fs, op);
    ApplyIsValid(fs, op);
  }

  function After(fs: Fs, ops: seq<Op>): Fs {
    if ops == [] then fs else Apply(After(fs, ops[..|ops| - 1]), ops[|ops| - 1])
  }

  /** Every call of the run is possible and within scope when it is made. */
  ghost predicate Ordinary(fs: Fs, ops: seq<Op>) {
    ops == []
    || (var n := |ops| - 1;
        Ordinary(fs, ops[..n]) && Possible(After(fs, ops[..n]), ops[n]) && InScope(After(fs, ops[..n]), ops[n]))
  }

  function Fresh(tree: Tree): Fs {
    Fs(tree, map[], map[], map[])
  }

  lemma OrdinaryLast(fs: Fs, ops: seq<Op>)
    requires ops != [] && Ordinary(fs, ops)
    ensures var n := |ops| - 1;
      && Ordinary(fs, ops[..n]) && Possible(After(fs, ops[..n]), ops[n]) && InScope(After(fs, ops[..n]), ops[n])
      && After(fs, ops) == Apply(After(fs, ops[..n]), ops[n])
  {
  }

  lemma OrdinarySnoc(fs: Fs, ops: seq<Op>, op: Op)
    requires Ordinary(fs, ops) && Possible(After(fs, ops), op) && InScope(After(fs, ops), op)
    ensures Ordinary(fs, ops + [op]) && After(fs, ops + [op]) == Apply(After(fs, ops), op)
  {
    assert (ops + [op])[..|ops|] == ops;
  }

  lemma {:induction false} OrdinaryKeepsSound(fs: Fs, ops: seq<Op>)
    requires Sound(fs) && Ordinary(fs, ops)
    ensures Sound(After(fs, ops))
  {
    if ops != [] {
      var n := |ops| - 1;
      OrdinaryLast(fs, ops);
      OrdinaryKeepsSound(fs, ops[..n]);
      SoundStep(After(fs, ops[..n]), ops[n]);
    }
  }

  lemma OrdinaryRunsAreSound(tree: Tree, ops: seq<Op>)
    requires Valid(tree) && Ordinary(Fresh(tree), ops)
    ensures Sound(After(Fresh(tree), ops))
  {
    OrdinaryKeepsSound(Fresh(tree), ops);
  }

  /** What Stat answers is what the upstream would answer, or for a file being written at least of the same kind. */
  predicate AnswerOk(fs: Fs, p: Path, now: int) {
    var mine, truth := StatAnswer(fs, p, now), StatOf(fs.tree, p);
    Loose(mine, truth) && (p !in Dirty(fs) ==> mine == truth)
  }

  /**
  After any ordinary run, and whatever the clock says, Stat answers what the upstream would answer now; while the file
  is open for writing the answer still has the right kind.
  */
  lemma StatIsTransparent(tree: Tree, ops: seq<Op>, name: string, now: int)
    requires Valid(tree) && Ordinary(Fresh(tree), ops)
    ensures AnswerOk(After(Fresh(tree), ops), Key(name), now)
  {
    OrdinaryRunsAreSound(tree, ops);
  }

  /** And a full listing of a present directory names exactly its children, each row right. */
  lemma ReaddirIsTransparent(tree: Tree, ops: seq<Op>, id: nat, now: int, up: Option<Listing>)
    requires Valid(tree) && Ordinary(Fresh(tree), ops + [ReaddirOp(id, now, up)])
    ensures var fs := After(Fresh(tree), ops);
      && id in fs.handles
      && (IsDir(fs.tree, fs.handles[id].path) ==>
           var mine := ReaddirAnswer(fs, id, now, up);
           mine.Some? && DirOk(fs.tree, Dirty(fs), fs.handles[id].path, mine.value.rows))
  {
    var all := ops + [ReaddirOp(id, now, up)];
    assert all[..|ops|] == ops && all[|ops|] == ReaddirOp(id, now, up);
    OrdinaryLast(Fresh(tree), all);
    OrdinaryRunsAreSound(tree, ops);
    ListingIsRight(After(Fresh(tree), ops), id, now, up);
  }

  lemma ListingIsRight(fs: Fs, id: nat, now: int, up: Option<Listing>)
    requires Right(fs) && id in fs.handles && UpstreamLists(fs, id, up) && Straight(fs, id, now)
    ensures IsDir(fs.tree, fs.handles[id].path) ==>
      var mine := ReaddirAnswer(fs, id, now, up);
      mine.Some? && DirOk(fs.tree, Dirty(fs), fs.handles[id].path, mine.value.rows)
  {
    var p := fs.handles[id].path;
    if IsDir(fs.tree, p) && !DirHit(fs, p, now) {
      ListsIsDirOk(fs.tree, Dirty(fs), p, up.value.rows);
    }
  }

  /**
  Closing the only writable handle of a path makes its answers exact at once, however long entries still live: Stat
  is exact, and the listing it is a row of is asked for anew.
  */
  lemma CloseRestores(fs: Fs, id: nat, flush: Option<int>, now: int)
    requires Sound(fs) && id in fs.handles && fs.handles[id].writable
    requires forall k | k in fs.handles && fs.handles[k].writable && k != id ::
      fs.handles[k].path != fs.handles[id].path
    ensures var g, p := DoClose(fs, id, flush), fs.handles[id].path;
      && Sound(g) && p !in Dirty(g)
      && StatAnswer(g, p, now) == StatOf(g.tree, p)
      && !DirHit(g, Parent(p), now)
  {
    CloseKeeps(fs, id, flush);
    if flush.Some? { HandleWriteIsValid(fs, id, flush.value); }
  }
}
