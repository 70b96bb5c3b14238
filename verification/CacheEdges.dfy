/** The edges of the scope: each condition on ordinary calls is shown to be the exact one. */
module CacheEdges {
  import opened Wrappers
  import opened Paths
  import opened Upstream
  import opened Cache
  import opened CacheTransparency

  // ------------------------------------------------------------------------------------------------------------
  // What invalidate drops
  // ------------------------------------------------------------------------------------------------------------

  /** None of it could be kept: making a directory changes what Stat says of it and of its parent, and the listing. */
  lemma InvalidateIsTight(t: Tree, p: Path, stamp: int, rows: seq<Info>)
    requires p != [] && p !in t && IsDir(t, Parent(p)) && t[Parent(p)] != Dir(stamp) && Lists(t, Parent(p), rows)
    ensures var u := Mkdir(t, p, stamp);
      && StatOf(u, p) != StatOf(t, p) && StatOf(u, Parent(p)) != StatOf(t, Parent(p)) && !Lists(u, Parent(p), rows)
  {
    var u := Mkdir(t, p, stamp);
    assert p in u && p == Parent(p) + [Last(p)];
  }

  /** Nor can the entry of a file that is truncated by being opened. */
  lemma TruncationShows(t: Tree, p: Path, f: Flags, stamp: int)
    requires p in t && t[p].File? && t[p] != File(stamp) && f.trunc
    ensures CanOpen(t, p, f) && StatOf(Open(t, p, f, stamp), p) == Found(Info(Last(p), File(stamp))) != StatOf(t, p)
  {
  }

  // ------------------------------------------------------------------------------------------------------------
  // Removing a subtree
  // ------------------------------------------------------------------------------------------------------------

  /** Nothing the cache holds speaks of anything at or below p that removing p takes away. */
  ghost predicate NothingCachedBelow(fs: Fs, p: Path) {
    && (forall q | q in fs.stats && p < q :: fs.stats[q].answer.Missing?)
    && (forall q | q in fs.readdir && p <= q :: fs.readdir[q].listing.rows == [])
  }

  lemma PrefixOfChild(p: Path, q: Path, name: string)
    ensures p <= q + [name] ==> p == q + [name] || p <= q
  {
    var c := q + [name];
    if p <= c && |p| < |c| {
      assert p == c[..|p|] == q[..|p|];
    } else if p <= c {
      assert p == c[..|c|];
    }
  }

  lemma RemovedDir(t: Tree, p: Path, stamp: int, dirty: set<Path>, q: Path, rows: seq<Info>)
    requires Valid(t) && p != [] && p in t && DirOk(t, dirty, q, rows) && q != Parent(p) && (p <= q ==> rows == [])
    ensures DirOk(RemoveAll(t, p, stamp), dirty, q, rows)
  {
    var u := RemoveAll(t, p, stamp);
    forall i | 0 <= i < |rows|
      ensures RowOk(u, dirty, q, rows[i])
    {
      var c := q + [rows[i].name];
      assert RowOk(t, dirty, q, rows[i]);
      assert Parent(c) == q && c != p;
      PrefixOfChild(p, q, rows[i].name);
    }
    forall c | c in u && c != [] && Parent(c) == q
      ensures Names(rows, Last(c))
    {
      assert c in t;
    }
  }

  lemma RemovedStat(t: Tree, p: Path, stamp: int, dirty: set<Path>, q: Path, a: Answer)
    requires StatOk(t, dirty, q, a) && q != p && q != Parent(p) && (p < q ==> a.Missing?)
    ensures StatOk(RemoveAll(t, p, stamp), dirty, q, a)
  {
    assert p <= q ==> p < q;
  }

  lemma CleanRemovalDrops(fs: Fs, p: Path, stamp: int)
    requires Faithful(fs) && p != [] && p in fs.tree && NothingCachedBelow(fs, p)
    ensures Faithful(Invalidate(fs.(tree := RemoveAll(fs.tree, p, stamp)), p))
  {
    var u := RemoveAll(fs.tree, p, stamp);
    RemoveIsValid(fs.tree, p, stamp);
    var dropped := Invalidate(fs.(tree := u), p);
    forall q | q in dropped.stats
      ensures StatOk(u, Dirty(dropped), q, dropped.stats[q].answer)
    {
      RemovedStat(fs.tree, p, stamp, Dirty(fs), q, fs.stats[q].answer);
    }
    forall q | q in dropped.readdir
      ensures DirOk(u, Dirty(dropped), q, dropped.readdir[q].listing.rows)
    {
      RemovedDir(fs.tree, p, stamp, Dirty(fs), q, fs.readdir[q].listing.rows);
    }
  }

  lemma CleanRemovalKeeps(fs: Fs, p: Path, stamp: int)
    requires Faithful(fs) && p != [] && p in fs.tree && NothingCachedBelow(fs, p)
    ensures Faithful(DoRemoveAll(fs, p, stamp))
  {
    var g := DoRemoveAll(fs, p, stamp);
    CleanRemovalDrops(fs, p, stamp);
    RemoveIsValid(fs.tree, p, stamp);
    SameDirty(fs, g);
    var dropped := Invalidate(fs.(tree := RemoveAll(fs.tree, p, stamp)), p);
    assert g == dropped.(handles := g.handles);
    HandlesKeep(dropped, g.handles);
  }

  lemma GoneBelow(fs: Fs, p: Path, stamp: int)
    requires p != [] && p in fs.tree
    ensures var g := DoRemoveAll(fs, p, stamp);
      && (forall q | p <= q :: q !in g.tree)
      && (forall q | p < q && q in fs.stats :: q in g.stats && g.stats[q] == fs.stats[q])
      && (forall q | p <= q && q in fs.readdir :: q in g.readdir && g.readdir[q] == fs.readdir[q])
  {
    assert !(p <= Parent(p));
  }

  lemma StaleAfterRemoval(fs: Fs, p: Path, stamp: int)
    requires Sound(fs) && p != [] && p in fs.tree && !NothingCachedBelow(fs, p)
    ensures !Faithful(DoRemoveAll(fs, p, stamp))
  {
    var g := DoRemoveAll(fs, p, stamp);
    GoneBelow(fs, p, stamp);
    if q :| q in fs.stats && p < q && fs.stats[q].answer.Found? {
      assert !StatOk(g.tree, Dirty(g), q, g.stats[q].answer);
    } else {
      var q :| q in fs.readdir && p <= q && fs.readdir[q].listing.rows != [];
      assert !DirOk(g.tree, Dirty(g), q, g.readdir[q].listing.rows);
    }
  }

  /** Removing a whole subtree leaves the cache right exactly when it holds nothing about the inside of the subtree. */
  lemma SubtreeRemovalExactly(fs: Fs, p: Path, stamp: int)
    requires Sound(fs) && p != [] && p in fs.tree
    ensures Faithful(DoRemoveAll(fs, p, stamp)) <==> NothingCachedBelow(fs, p)
  {
    if NothingCachedBelow(fs, p) { CleanRemovalKeeps(fs, p, stamp); } else { StaleAfterRemoval(fs, p, stamp); }
  }

  // ------------------------------------------------------------------------------------------------------------
  // Renaming a subtree
  // ------------------------------------------------------------------------------------------------------------

  /** What the cache holds about the inside of a, and about what will be the inside of b. */
  ghost predicate NothingCachedAcross(fs: Fs, a: Path, b: Path) {
    && (forall q | q in fs.stats && a < q :: fs.stats[q].answer.Missing?)
    && (forall q | q in fs.readdir && a <= q :: fs.readdir[q].listing.rows == [])
    && (forall q | q in fs.stats && b < q :: Before(a, b, q) !in fs.tree)
    && (forall q | q in fs.readdir && b <= q :: Childless(fs.tree, Before(a, b, q)))
  }

  /** Nothing stands below a path that a rename may replace. */
  lemma TargetIsEmpty(t: Tree, a: Path, b: Path, q: Path)
    requires Valid(t) && CanRename(t, a, b) && b < q
    ensures q !in t
  {
    assert q[..|b|] == b;
    if q in t {
      AncestorsPresent(t, q, |b|);
    }
  }

  lemma AcrossStat(fs: Fs, a: Path, b: Path, stamp: int, q: Path)
    requires Faithful(fs) && CanRename(fs.tree, a, b) && q in fs.stats
    requires q != a && q != b && q != Parent(a) && q != Parent(b)
    ensures StatOk(Rename(fs.tree, a, b, stamp), Dirty(fs), q, fs.stats[q].answer) <==>
      ((a < q ==> fs.stats[q].answer.Missing?) && (b < q ==> Before(a, b, q) !in fs.tree))
  {
    RenameShape(fs.tree, a, b, stamp, q);
    assert StatOk(fs.tree, Dirty(fs), q, fs.stats[q].answer);
    if b < q { TargetIsEmpty(fs.tree, a, b, q); }
    if a < q && b < q { PrefixesCompare(a, b, q); }
  }

  lemma ChildlessAfter(t: Tree, a: Path, b: Path, stamp: int, q: Path)
    requires Valid(t) && CanRename(t, a, b) && b <= q
    ensures Childless(Rename(t, a, b, stamp), q) <==> Childless(t, Before(a, b, q))
  {
    var u, r := Rename(t, a, b, stamp), Before(a, b, q);
    if c :| c in u && c != [] && Parent(c) == q { ChildCame(t, a, b, stamp, q, c); }
    if c :| c in t && c != [] && Parent(c) == r { ChildMoves(t, a, b, stamp, q, c); }
  }

  lemma ChildCame(t: Tree, a: Path, b: Path, stamp: int, q: Path, c: Path)
    requires CanRename(t, a, b) && b <= q && c in Rename(t, a, b, stamp) && c != [] && Parent(c) == q
    ensures !Childless(t, Before(a, b, q))
  {
    RenameShape(t, a, b, stamp, c);
    BeforeParent(a, b, c);
    assert Before(a, b, c) in t && Before(a, b, c) != [];
  }

  lemma ChildMoves(t: Tree, a: Path, b: Path, stamp: int, q: Path, c: Path)
    requires CanRename(t, a, b) && b <= q && c in t && c != [] && Parent(c) == Before(a, b, q)
    ensures !Childless(Rename(t, a, b, stamp), q)
  {
    var d := q + [Last(c)];
    SnocBefore(a, b, q, Last(c));
    assert c == Parent(c) + [Last(c)];
    RenameShape(t, a, b, stamp, d);
    assert Parent(d) == q && d != [];
  }

  lemma SnocBefore(a: Path, b: Path, q: Path, name: string)
    requires b <= q
    ensures b <= q + [name] && Before(a, b, q + [name]) == Before(a, b, q) + [name]
  {
    assert (q + [name])[|b|..] == q[|b|..] + [name];
  }

  lemma NoneLeft(t: Tree, a: Path, b: Path, stamp: int, q: Path)
    requires Valid(t) && CanRename(t, a, b) && a <= q
    ensures q !in Rename(t, a, b, stamp) && Childless(Rename(t, a, b, stamp), q)
  {
    var u := Rename(t, a, b, stamp);
    forall c | c in u
      ensures !(a <= c)
    {
      RenameShape(t, a, b, stamp, c);
      if a <= c && b <= c { PrefixesCompare(a, b, c); }
    }
    assert forall c | c in u && c != [] && Parent(c) == q :: a <= c;
  }

  lemma ElsewhereDir(fs: Fs, a: Path, b: Path, stamp: int, q: Path, rows: seq<Info>)
    requires Faithful(fs) && CanRename(fs.tree, a, b) && DirOk(fs.tree, Dirty(fs), q, rows)
    requires q != Parent(a) && q != Parent(b) && !(a <= q) && !(b <= q)
    ensures DirOk(Rename(fs.tree, a, b, stamp), Dirty(fs), q, rows)
  {
    var t, u := fs.tree, Rename(fs.tree, a, b, stamp);
    RenameShape(t, a, b, stamp, q);
    forall i | 0 <= i < |rows|
      ensures RowOk(u, Dirty(fs), q, rows[i])
    {
      var c := q + [rows[i].name];
      assert RowOk(t, Dirty(fs), q, rows[i]) && Parent(c) == q;
      SameBelow(a, b, q, c);
      RenameShape(t, a, b, stamp, c);
    }
    forall c | c in u && c != [] && Parent(c) == q
      ensures Names(rows, Last(c))
    {
      SameBelow(a, b, q, c);
      RenameShape(t, a, b, stamp, c);
    }
  }

  lemma SameBelow(a: Path, b: Path, q: Path, c: Path)
    requires c != [] && Parent(c) == q && q != Parent(a) && q != Parent(b) && !(a <= q) && !(b <= q)
    ensures !(a <= c) && !(b <= c) && Before(a, b, c) == c
  {
    assert a <= c ==> a == c || a <= Parent(c);
    assert b <= c ==> b == c || b <= Parent(c);
  }

  lemma AcrossDir(fs: Fs, a: Path, b: Path, stamp: int, q: Path)
    requires Faithful(fs) && CanRename(fs.tree, a, b) && q in fs.readdir && q != Parent(a) && q != Parent(b)
    ensures DirOk(Rename(fs.tree, a, b, stamp), Dirty(fs), q, fs.readdir[q].listing.rows) <==>
      ((a <= q ==> fs.readdir[q].listing.rows == []) && (b <= q ==> Childless(fs.tree, Before(a, b, q))))
  {
    var t, u, rows := fs.tree, Rename(fs.tree, a, b, stamp), fs.readdir[q].listing.rows;
    assert DirOk(t, Dirty(fs), q, rows);
    if a <= q {
      NoneLeft(t, a, b, stamp, q);
      EmptyFits(u, Dirty(fs), q);
      if b <= q { PrefixesCompare(a, b, q); }
    } else if b <= q {
      NothingListedBelow(t, a, b, Dirty(fs), q, rows);
      EmptyFits(u, Dirty(fs), q);
      ChildlessAfter(t, a, b, stamp, q);
    } else {
      ElsewhereDir(fs, a, b, stamp, q, rows);
    }
  }

  lemma NothingListedBelow(t: Tree, a: Path, b: Path, dirty: set<Path>, q: Path, rows: seq<Info>)
    requires Valid(t) && CanRename(t, a, b) && b <= q && DirOk(t, dirty, q, rows)
    ensures rows == []
  {
    if rows != [] {
      assert RowOk(t, dirty, q, rows[0]);
      TargetIsEmpty(t, a, b, q + [rows[0].name]);
    }
  }

  lemma AfterRename(fs: Fs, a: Path, b: Path, stamp: int)
    ensures var g := DoRename(fs, a, b, stamp);
      && g.tree == Rename(fs.tree, a, b, stamp) && Dirty(g) == Dirty(fs)
      && g.stats == fs.stats - {a, Parent(a), b, Parent(b)} && g.readdir == fs.readdir - {Parent(a), Parent(b)}
  {
    SameDirty(fs, DoRename(fs, a, b, stamp));
  }

  /** What a rename of a to b asks of what is cached for q. */
  predicate StatFits(fs: Fs, a: Path, b: Path, q: Path)
    requires q in fs.stats
  {
    (a < q ==> fs.stats[q].answer.Missing?) && (b < q ==> Before(a, b, q) !in fs.tree)
  }

  ghost predicate DirFits(fs: Fs, a: Path, b: Path, q: Path)
    requires q in fs.readdir
  {
    (a <= q ==> fs.readdir[q].listing.rows == []) && (b <= q ==> Childless(fs.tree, Before(a, b, q)))
  }

  lemma StatAcross(fs: Fs, a: Path, b: Path, stamp: int, q: Path)
    requires Faithful(fs) && CanRename(fs.tree, a, b) && q in DoRename(fs, a, b, stamp).stats
    ensures var g := DoRename(fs, a, b, stamp);
      q in fs.stats && (StatOk(g.tree, Dirty(g), q, g.stats[q].answer) <==> StatFits(fs, a, b, q))
  {
    AfterRename(fs, a, b, stamp);
    AcrossStat(fs, a, b, stamp, q);
  }

  lemma DirAcross(fs: Fs, a: Path, b: Path, stamp: int, q: Path)
    requires Faithful(fs) && CanRename(fs.tree, a, b) && q in DoRename(fs, a, b, stamp).readdir
    ensures var g := DoRename(fs, a, b, stamp);
      q in fs.readdir && (DirOk(g.tree, Dirty(g), q, g.readdir[q].listing.rows) <==> DirFits(fs, a, b, q))
  {
    AfterRename(fs, a, b, stamp);
    AcrossDir(fs, a, b, stamp, q);
  }

  lemma StatsEnough(fs: Fs, a: Path, b: Path, stamp: int)
    requires Faithful(fs) && CanRename(fs.tree, a, b) && forall q | q in fs.stats :: StatFits(fs, a, b, q)
    ensures var g := DoRename(fs, a, b, stamp);
      forall q | q in g.stats :: StatOk(g.tree, Dirty(g), q, g.stats[q].answer)
  {
    var g := DoRename(fs, a, b, stamp);
    forall q | q in g.stats
      ensures StatOk(g.tree, Dirty(g), q, g.stats[q].answer)
    {
      StatAcross(fs, a, b, stamp, q);
    }
  }

  lemma DirsEnough(fs: Fs, a: Path, b: Path, stamp: int)
    requires Faithful(fs) && CanRename(fs.tree, a, b) && forall q | q in fs.readdir :: DirFits(fs, a, b, q)
    ensures var g := DoRename(fs, a, b, stamp);
      forall q | q in g.readdir :: DirOk(g.tree, Dirty(g), q, g.readdir[q].listing.rows)
  {
    var g := DoRename(fs, a, b, stamp);
    forall q | q in g.readdir
      ensures DirOk(g.tree, Dirty(g), q, g.readdir[q].listing.rows)
    {
      DirAcross(fs, a, b, stamp, q);
    }
  }

  lemma AcrossIsEnough(fs: Fs, a: Path, b: Path, stamp: int)
    requires Faithful(fs) && CanRename(fs.tree, a, b) && NothingCachedAcross(fs, a, b)
    ensures Current(DoRename(fs, a, b, stamp))
  {
    StatsEnough(fs, a, b, stamp);
    DirsEnough(fs, a, b, stamp);
  }

  lemma AcrossIsNeeded(fs: Fs, a: Path, b: Path, stamp: int)
    requires Faithful(fs) && CanRename(fs.tree, a, b) && Current(DoRename(fs, a, b, stamp))
    ensures NothingCachedAcross(fs, a, b)
  {
    KeptBelow(fs, a, b, stamp);
    forall q | q in fs.stats && (a < q || b < q)
      ensures StatFits(fs, a, b, q)
    {
      StatAcross(fs, a, b, stamp, q);
    }
    forall q | q in fs.readdir && (a <= q || b <= q)
      ensures DirFits(fs, a, b, q)
    {
      DirAcross(fs, a, b, stamp, q);
    }
  }

  /**
  Renaming a whole subtree leaves the cache right if and only if it holds nothing about the inside of the subtree, and
  nothing about the target's inside that the subtree's arrival makes wrong.
  */
  lemma SubtreeRenameExactly(fs: Fs, a: Path, b: Path, stamp: int)
    requires Sound(fs) && CanRename(fs.tree, a, b) && Canonical(b)
    ensures Faithful(DoRename(fs, a, b, stamp)) <==> NothingCachedAcross(fs, a, b)
  {
    RenameIsValid(fs.tree, a, b, stamp);
    if NothingCachedAcross(fs, a, b) { AcrossIsEnough(fs, a, b, stamp); }
    if Current(DoRename(fs, a, b, stamp)) { AcrossIsNeeded(fs, a, b, stamp); }
  }

  lemma KeptBelow(fs: Fs, a: Path, b: Path, stamp: int)
    requires CanRename(fs.tree, a, b)
    ensures var g := DoRename(fs, a, b, stamp);
      && (forall q | q in fs.stats && (a < q || b < q) :: q in g.stats)
      && (forall q | q in fs.readdir && (a <= q || b <= q) :: q in g.readdir)
  {
    AfterRename(fs, a, b, stamp);
    assert a <= Parent(b) ==> a <= b;
    assert b <= Parent(a) ==> b <= a;
    assert !(a <= Parent(a)) && !(b <= Parent(b));
  }

  // ------------------------------------------------------------------------------------------------------------
  // Listing through a handle that moved, is gone, or has been drained
  // ------------------------------------------------------------------------------------------------------------

  /** What stands at q under this name and what stands at p under it are the same, as far as an entry can tell. */
  predicate Alike(t: Tree, dirty: set<Path>, q: Path, p: Path, name: string) {
    && (q + [name] in t <==> p + [name] in t)
    && (q + [name] in t ==> SameKind(t[q + [name]], t[p + [name]])
                            && (p + [name] !in dirty ==> t[q + [name]] == t[p + [name]]))
  }

  /** The two directories have the same children. */
  ghost predicate Mirrors(t: Tree, dirty: set<Path>, q: Path, p: Path) {
    forall name :: Alike(t, dirty, q, p, name)
  }

  /** What a handle will list is what is at the path it was opened under. */
  ghost predicate Reflects(fs: Fs, id: nat)
    requires id in fs.handles
  {
    var h := fs.handles[id];
    if h.at.None? || h.drained then Childless(fs.tree, h.path) else Mirrors(fs.tree, Dirty(fs), h.at.value, h.path)
  }

  lemma {:induction false} SeedHas(stats: map<Path, StatEntry>, p: Path, rows: seq<Info>, expires: int, i: nat)
    requires i < |rows| && forall j, k | 0 <= j < k < |rows| :: rows[j].name != rows[k].name
    ensures p + [rows[i].name] in Seed(stats, p, rows, expires)
    ensures Seed(stats, p, rows, expires)[p + [rows[i].name]] == StatEntry(Found(rows[i]), expires)
  {
    var n := |rows| - 1;
    if i < n {
      SeedHas(stats, p, rows[..n], expires, i);
      assert (p + [rows[i].name])[|p|] != (p + [rows[n].name])[|p|];
    }
  }

  lemma ChildRow(t: Tree, q: Path, rows: seq<Info>, name: string) returns (i: nat)
    requires Lists(t, q, rows) && q + [name] in t
    ensures i < |rows| && rows[i].name == name && rows[i].node == t[q + [name]]
  {
    var c := q + [name];
    assert Parent(c) == q && Last(c) == name && Names(rows, name);
    i :| 0 <= i < |rows| && rows[i].name == name;
    assert StatOf(t, q + [rows[i].name]) == Found(rows[i]);
  }

  lemma RowFits(t: Tree, dirty: set<Path>, q: Path, p: Path, rows: seq<Info>, i: nat)
    requires Lists(t, q, rows) && Mirrors(t, dirty, q, p) && i < |rows|
    ensures RowOk(t, dirty, p, rows[i]) && StatOk(t, dirty, p + [rows[i].name], Found(rows[i]))
  {
    assert StatOf(t, q + [rows[i].name]) == Found(rows[i]);
    assert Alike(t, dirty, q, p, rows[i].name);
  }

  /** Rows that list q are right for p exactly if the two have the same children. */
  lemma RowsFit(t: Tree, dirty: set<Path>, q: Path, p: Path, rows: seq<Info>)
    requires Valid(t) && Lists(t, q, rows) && Mirrors(t, dirty, q, p)
    ensures DirOk(t, dirty, p, rows)
    ensures forall i | 0 <= i < |rows| :: StatOk(t, dirty, p + [rows[i].name], Found(rows[i]))
  {
    forall i | 0 <= i < |rows|
      ensures RowOk(t, dirty, p, rows[i]) && StatOk(t, dirty, p + [rows[i].name], Found(rows[i]))
    {
      RowFits(t, dirty, q, p, rows, i);
    }
    ChildrenNamed(t, dirty, q, p, rows);
    if rows != [] {
      assert RowOk(t, dirty, p, rows[0]) && Parent(p + [rows[0].name]) == p;
    }
  }

  lemma ChildrenNamed(t: Tree, dirty: set<Path>, q: Path, p: Path, rows: seq<Info>)
    requires Lists(t, q, rows) && Mirrors(t, dirty, q, p)
    ensures forall c | c in t && c != [] && Parent(c) == p :: Names(rows, Last(c))
  {
    forall c | c in t && c != [] && Parent(c) == p
      ensures Names(rows, Last(c))
    {
      assert c == p + [Last(c)] && Alike(t, dirty, q, p, Last(c));
      var i := ChildRow(t, q, rows, Last(c));
    }
  }

  lemma RowsMustFit(t: Tree, dirty: set<Path>, q: Path, p: Path, rows: seq<Info>)
    requires Lists(t, q, rows) && DirOk(t, dirty, p, rows)
    requires forall i | 0 <= i < |rows| :: StatOk(t, dirty, p + [rows[i].name], Found(rows[i]))
    ensures Mirrors(t, dirty, q, p)
  {
    forall name
      ensures Alike(t, dirty, q, p, name)
    {
      if q + [name] in t {
        var i := ChildRow(t, q, rows, name);
        assert StatOk(t, dirty, p + [name], Found(rows[i]));
      }
      if p + [name] in t {
        assert Parent(p + [name]) == p && Last(p + [name]) == name;
        var i :| 0 <= i < |rows| && rows[i].name == name;
        assert StatOf(t, q + [rows[i].name]) == Found(rows[i]);
      }
    }
  }

  lemma StoredListing(fs: Fs, id: nat, now: int, l: Listing)
    requires id in fs.handles && !DirHit(fs, fs.handles[id].path, now)
    ensures var g, p := DoReaddir(fs, id, now, Some(l)), fs.handles[id].path;
      && g.tree == fs.tree && Dirty(g) == Dirty(fs)
      && g.readdir == fs.readdir[p := DirEntry(l, now + TTL)]
      && g.stats == Seed(fs.stats, p, l.rows, now + TTL)
  {
    SameDirty(fs, DoReaddir(fs, id, now, Some(l)));
  }

  /** Storing these rows for p leaves the cache right exactly if they are right for p. */
  lemma StoringExactly(fs: Fs, id: nat, now: int, l: Listing)
    requires Faithful(fs) && id in fs.handles && !DirHit(fs, fs.handles[id].path, now)
    requires forall j, k | 0 <= j < k < |l.rows| :: l.rows[j].name != l.rows[k].name
    ensures var p, t, dirty := fs.handles[id].path, fs.tree, Dirty(fs);
      Faithful(DoReaddir(fs, id, now, Some(l))) <==>
        (DirOk(t, dirty, p, l.rows)
         && forall i | 0 <= i < |l.rows| :: StatOk(t, dirty, p + [l.rows[i].name], Found(l.rows[i])))
  {
    var p, g := fs.handles[id].path, DoReaddir(fs, id, now, Some(l));
    StoredListing(fs, id, now, l);
    SeedIs(fs.stats, p, l.rows, now + TTL);
    if Faithful(g) {
      assert p in g.readdir && g.readdir[p].listing == l;
      forall i | 0 <= i < |l.rows|
        ensures StatOk(fs.tree, Dirty(fs), p + [l.rows[i].name], Found(l.rows[i]))
      {
        SeedHas(fs.stats, p, l.rows, now + TTL, i);
      }
    }
  }

  /**
  A listing that reaches the upstream leaves the cache right if and only if what the handle lists is what stands at the
  path it was opened under: the same children, where the handle's directory is now, or no children at all there, if the
  handle's directory is gone or it has been drained before.
  */
  lemma ReaddirExactly(fs: Fs, id: nat, now: int, up: Option<Listing>)
    requires Sound(fs) && id in fs.handles && UpstreamLists(fs, id, up) && up.Some?
    requires !DirHit(fs, fs.handles[id].path, now)
    ensures Faithful(DoReaddir(fs, id, now, up)) <==> Reflects(fs, id)
  {
    var h, rows, t, dirty := fs.handles[id], up.value.rows, fs.tree, Dirty(fs);
    StoringExactly(fs, id, now, up.value);
    if h.at.None? || h.drained {
      EmptyFits(t, dirty, h.path);
    } else {
      var q := h.at.value;
      if Mirrors(t, dirty, q, h.path) { RowsFit(t, dirty, q, h.path, rows); }
      if Faithful(DoReaddir(fs, id, now, up)) { RowsMustFit(t, dirty, q, h.path, rows); }
    }
  }

  lemma EmptyFits(t: Tree, dirty: set<Path>, p: Path)
    ensures DirOk(t, dirty, p, []) <==> Childless(t, p)
  {
    if DirOk(t, dirty, p, []) {
      forall q | q in t && q != []
        ensures Parent(q) != p
      {
        assert !Names([], Last(q));
      }
    }
  }

  /** Draining a directory handle a second time leaves the cache right exactly when the directory is empty. */
  lemma SecondDrainExactly(fs: Fs, id: nat, now: int, up: Option<Listing>)
    requires Sound(fs) && id in fs.handles && fs.handles[id].drained && UpstreamLists(fs, id, up) && up.Some?
    requires !DirHit(fs, fs.handles[id].path, now)
    ensures Faithful(DoReaddir(fs, id, now, up)) <==> Childless(fs.tree, fs.handles[id].path)
  {
    ReaddirExactly(fs, id, now, up);
  }

  const READ_ONLY := Flags(false, false, false, false, false)

  /** The tree of one empty directory. */
  function OneDir(d: string): Tree {
    map[[] := Dir(0), [d] := Dir(0)]
  }

  lemma OneDirValid(d: string, e: string)
    requires Plain(d) && Plain(e) && d != e
    ensures Valid(OneDir(d)) && Bare(OneDir(d), [d]) && CanRename(OneDir(d), [d], [e])
  {
    var t := OneDir(d);
    assert Parent([d]) == [] && Parent([e]) == [];
    assert [d][0] != [e][0];
    assert !([d] <= [e]) && !([e] <= [d]) && [e] !in t;
    assert t[[]] == Dir(0) && Canonical([]) && Canonical([d]);
    assert forall p | p in t :: p == [] || p == [d];
  }

  /** Open the directory, rename it, and make one in it. */
  function MoveRun(d: string, e: string, y: string): seq<Op> {
    [OpenOp(0, Render([d]), READ_ONLY, 0), RenameOp(Render([d]), Render([e]), 0), MkdirOp(Render([e, y]), 0)]
  }

  lemma Names2(d: string, e: string, y: string)
    requires Plain(d) && Plain(e) && Plain(y)
    ensures Key(Render([d])) == [d] && Key(Render([e])) == [e] && Key(Render([e, y])) == [e, y]
  {
    assert Canonical([d]) && Canonical([e]) && Canonical([e, y]);
    RenderKey([d]);
    RenderKey([e]);
    RenderKey([e, y]);
  }

  lemma OpenFirst(d: string)
    requires Plain(d)
    ensures var fs := DoOpen(Fresh(OneDir(d)), 0, [d], READ_ONLY, 0);
      fs == Fs(OneDir(d), map[], map[], map[0 := Handle([d], Some([d]), false, false)])
  {
  }

  lemma MovedTree(d: string, e: string)
    requires Plain(d) && Plain(e) && d != e
    ensures var t := OneDir(d);
      && CanRename(t, [d], [e]) && Bare(t, [d]) && Bare(t, [e])
      && Rename(t, [d], [e], 0) == map[[] := Dir(0), [e] := Dir(0)]
  {
    OneDirValid(d, e);
    var t := OneDir(d);
    ValidIsClear(t, [e]);
    RenameIsPut(t, [d], [e], 0);
    WithoutLeaf(t, [d]);
    assert Parent([d]) == [] && Parent([e]) == [];
    assert Rename(t, [d], [e], 0) == map[[] := Dir(0), [e] := Dir(0)];
  }

  /** The moved directory is at [e], empty, and its handle knows. */
  lemma MovedAway(fs: Fs, d: string, e: string)
    requires Plain(d) && Plain(e) && d != e
    requires fs == Fs(OneDir(d), map[], map[], map[0 := Handle([d], Some([d]), false, false)])
    ensures var g := DoRename(fs, [d], [e], 0);
      && g.tree == map[[] := Dir(0), [e] := Dir(0)]
      && g.handles == map[0 := Handle([d], Some([e]), false, false)] && g.readdir == map[] && g.stats == map[]
  {
    MovedTree(d, e);
    RelocatedLeaf(OneDir(d), [d], [e], fs.handles[0]);
  }

  lemma MadeInside(fs: Fs, d: string, e: string, y: string)
    requires Plain(d) && Plain(e) && Plain(y) && d != e
    requires fs.tree == map[[] := Dir(0), [e] := Dir(0)] && fs.readdir == map[]
    requires fs.handles == map[0 := Handle([d], Some([e]), false, false)]
    ensures var g := DoMkdir(fs, [e, y], 0);
      && g.tree == map[[] := Dir(0), [e] := Dir(0), [e, y] := Dir(0)] && g.handles == fs.handles && g.readdir == map[]
      && Lists(g.tree, [e], [Info(y, Dir(0))]) && IsDir(g.tree, [e]) && [d, y] !in g.tree
  {
    assert Parent([e, y]) == [e] && Parent([e]) == [] && [e] + [y] == [e, y];
    assert [e, y] !in fs.tree by { assert |[e, y]| == 2; }
    var g := DoMkdir(fs, [e, y], 0);
    assert [d, y][0] != [e, y][0];
    assert [Info(y, Dir(0))][0].name == y;
  }

  lemma MoveRunIsOrdinary(d: string, e: string, y: string)
    requires Plain(d) && Plain(e) && Plain(y) && d != e
    ensures Valid(OneDir(d)) && Ordinary(Fresh(OneDir(d)), MoveRun(d, e, y))
    ensures After(Fresh(OneDir(d)), MoveRun(d, e, y))
      == DoMkdir(DoRename(DoOpen(Fresh(OneDir(d)), 0, [d], READ_ONLY, 0), [d], [e], 0), [e, y], 0)
  {
    OneDirValid(d, e);
    Names2(d, e, y);
    OpenFirst(d);
    var f0, r := Fresh(OneDir(d)), MoveRun(d, e, y);
    assert Ordinary(f0, []) && [] + [r[0]] == [r[0]] && [r[0]] + [r[1]] == [r[0], r[1]] && [r[0], r[1]] + [r[2]] == r;
    OrdinarySnoc(f0, [], r[0]);
    OrdinarySnoc(f0, [r[0]], r[1]);
    OrdinarySnoc(f0, [r[0], r[1]], r[2]);
  }

  /** The state after the three calls: the directory is elsewhere, and has a child that its opening path never had. */
  lemma AfterMove(d: string, e: string, y: string) returns (fs: Fs)
    requires Plain(d) && Plain(e) && Plain(y) && d != e
    ensures fs == After(Fresh(OneDir(d)), MoveRun(d, e, y))
    ensures fs.handles == map[0 := Handle([d], Some([e]), false, false)] && fs.readdir == map[]
    ensures Lists(fs.tree, [e], [Info(y, Dir(0))]) && IsDir(fs.tree, [e]) && [d, y] !in fs.tree
  {
    MoveRunIsOrdinary(d, e, y);
    OpenFirst(d);
    var f1 := DoOpen(Fresh(OneDir(d)), 0, [d], READ_ONLY, 0);
    MovedAway(f1, d, e);
    var f2 := DoRename(f1, [d], [e], 0);
    MadeInside(f2, d, e, y);
    fs := DoMkdir(f2, [e, y], 0);
  }

  lemma ListedWrong(fs: Fs, d: string, e: string, y: string, now: int)
    requires fs.handles == map[0 := Handle([d], Some([e]), false, false)] && fs.readdir == map[]
    requires Lists(fs.tree, [e], [Info(y, Dir(0))]) && IsDir(fs.tree, [e]) && [d, y] !in fs.tree
    ensures var up := Some(Listing([Info(y, Dir(0))], false));
      && UpstreamLists(fs, 0, up)
      && var g := DoReaddir(fs, 0, now, up);
      StatAnswer(g, [d, y], now) == Found(Info(y, Dir(0))) && StatOf(g.tree, [d, y]) == Missing
  {
    var l := Listing([Info(y, Dir(0))], false);
    StoredListing(fs, 0, now, l);
    SeedHas(fs.stats, [d], l.rows, now + TTL, 0);
    assert [d] + [y] == [d, y];
  }

  /**
  Such a listing happens: after three ordinary calls, listing the renamed directory through its old handle makes Stat
  answer for a path that never existed.
  */
  lemma MovedHandleInvents(d: string, e: string, y: string, now: int)
    requires Plain(d) && Plain(e) && Plain(y) && d != e
    ensures Ordinary(Fresh(OneDir(d)), MoveRun(d, e, y))
    ensures var fs, up := After(Fresh(OneDir(d)), MoveRun(d, e, y)), Some(Listing([Info(y, Dir(0))], false));
      && Possible(fs, ReaddirOp(0, now, up))
      && var g := Apply(fs, ReaddirOp(0, now, up));
      StatAnswer(g, [d, y], now) == Found(Info(y, Dir(0))) && StatOf(g.tree, [d, y]) == Missing
  {
    MoveRunIsOrdinary(d, e, y);
    var fs := AfterMove(d, e, y);
    ListedWrong(fs, d, e, y, now);
  }

  // ------------------------------------------------------------------------------------------------------------
  // Renaming a file that is open for writing
  // ------------------------------------------------------------------------------------------------------------

  /** However an ordinary run goes on from here, every Stat answers as the upstream would. */
  ghost predicate AnswersAhead(fs: Fs) {
    forall ops, name, now | Ordinary(fs, ops) :: AnswerOk(After(fs, ops), Key(name), now)
  }

  lemma SoundAnswers(fs: Fs)
    requires Sound(fs)
    ensures AnswersAhead(fs)
  {
    forall ops, name, now | Ordinary(fs, ops)
      ensures AnswerOk(After(fs, ops), Key(name), now)
    {
      OrdinaryKeepsSound(fs, ops);
    }
  }

  /** A file is open for writing under another name than it has, and nothing about where it is now is cached. */
  predicate Adrift(fs: Fs, id: nat, b: Path) {
    && id in fs.handles && fs.handles[id].writable && fs.handles[id].at == Some(b) && fs.handles[id].path != b
    && fs.handles[id].path != [] && b in fs.tree && fs.tree[b].File? && b !in fs.stats
  }

  lemma CloseOther(fs: Fs, id: nat, b: Path, k: nat)
    requires Adrift(fs, id, b) && k in fs.handles && k != id && fs.handles[k].writable && fs.handles[k].path == b
    ensures Adrift(DoClose(fs, k, None), id, b) && |DoClose(fs, k, None).handles| < |fs.handles|
  {
    assert (fs.handles - {k}).Keys == fs.handles.Keys - {k};
    assert |(fs.handles - {k}).Keys| == |fs.handles.Keys| - 1;
  }

  /** All other files open for writing under that path can be closed. */
  lemma {:induction false} CloseOthers(fs: Fs, id: nat, b: Path) returns (ops: seq<Op>)
    requires Adrift(fs, id, b)
    ensures Ordinary(fs, ops) && Adrift(After(fs, ops), id, b) && b !in Dirty(After(fs, ops))
    decreases |fs.handles|
  {
    if k :| k in fs.handles && fs.handles[k].writable && fs.handles[k].path == b {
      CloseOther(fs, id, b, k);
      var rest := CloseOthers(DoClose(fs, k, None), id, b);
      OrdinaryCons(fs, CloseOp(k, None), rest);
      ops := [CloseOp(k, None)] + rest;
    } else {
      ops := [];
    }
  }

  lemma OrdinaryCons(fs: Fs, op: Op, ops: seq<Op>)
    requires Possible(fs, op) && InScope(fs, op) && Ordinary(Apply(fs, op), ops)
    ensures Ordinary(fs, [op] + ops) && After(fs, [op] + ops) == After(Apply(fs, op), ops)
  {
    assert [] + [op] == [op] && Ordinary(fs, []);
    OrdinarySnoc(fs, [], op);
    OrdinaryAppend(fs, [op], ops);
  }

  /** Looking at it, then writing through the old handle, gives an answer that is not the upstream's. */
  lemma DriftShows(fs: Fs, id: nat, b: Path)
    requires Adrift(fs, id, b) && b !in Dirty(fs) && Canonical(b)
    ensures !AnswersAhead(fs)
  {
    var m, name := fs.tree[b].meta, Render(b);
    RenderKey(b);
    var look, write := StatOp(name, 0), WriteOp(id, m + 1);
    assert Ordinary(fs, []);
    OrdinarySnoc(fs, [], look);
    var g := Apply(fs, look);
    assert [] + [look] == [look] && g.stats[b] == StatEntry(StatOf(fs.tree, b), TTL);
    OrdinarySnoc(fs, [look], write);
    var h := Apply(g, write);
    assert h.tree[b] == File(m + 1) && StatAnswer(h, b, 0) == StatOf(fs.tree, b);
    assert Dirty(h) == Dirty(fs);
    assert !AnswerOk(After(fs, [look] + [write]), Key(name), 0);
  }

  lemma AdriftAhead(fs: Fs, id: nat, b: Path)
    requires Adrift(fs, id, b) && Canonical(b)
    ensures !AnswersAhead(fs)
  {
    var ops := CloseOthers(fs, id, b);
    var g := After(fs, ops);
    DriftShows(g, id, b);
    var more, name, now :| Ordinary(g, more) && !AnswerOk(After(g, more), Key(name), now);
    OrdinaryAppend(fs, ops, more);
    assert !AnswerOk(After(fs, ops + more), Key(name), now);
  }

  lemma {:induction false} OrdinaryAppend(fs: Fs, a: seq<Op>, b: seq<Op>)
    requires Ordinary(fs, a) && Ordinary(After(fs, a), b)
    ensures Ordinary(fs, a + b) && After(fs, a + b) == After(After(fs, a), b)
  {
    if b == [] {
      assert a + b == a;
    } else {
      AppendSplit(a, b);
      OrdinaryAppend(fs, a, b[..|b| - 1]);
      OrdinaryByLast(fs, a + b, After(After(fs, a), b[..|b| - 1]));
    }
  }

  lemma AppendSplit(a: seq<Op>, b: seq<Op>)
    requires b != []
    ensures var n := |a + b| - 1; (a + b)[..n] == a + b[..|b| - 1] && (a + b)[n] == b[|b| - 1]
  {
  }

  lemma OrdinaryByLast(fs: Fs, ops: seq<Op>, g: Fs)
    requires ops != []
    requires var n := |ops| - 1; Ordinary(fs, ops[..n]) && After(fs, ops[..n]) == g
    requires var op := ops[|ops| - 1]; Possible(g, op) && InScope(g, op)
    ensures Ordinary(fs, ops) && After(fs, ops) == Apply(g, ops[|ops| - 1])
  {
  }

  /**
  Renaming a path with nothing below it, exactly: all that can follow is answered as the upstream would answer it if and
  only if the file that is renamed is not open for writing.
  */
  lemma RenameExactly(fs: Fs, a: Path, b: Path, stamp: int)
    requires Sound(fs) && CanRename(fs.tree, a, b) && Bare(fs.tree, a) && Canonical(b)
    ensures AnswersAhead(DoRename(fs, a, b, stamp)) <==> Settled(fs, a)
  {
    var g := DoRename(fs, a, b, stamp);
    ValidIsClear(fs.tree, b);
    RenameIsValid(fs.tree, a, b, stamp);
    if Settled(fs, a) {
      RenameKeeps(fs, a, b, stamp);
      RenameAnchors(fs, a, b, stamp);
      RenamePlaces(fs, a, b, stamp);
      SoundAnswers(g);
    } else {
      var id :| id in fs.handles && fs.handles[id].writable && fs.handles[id].at == Some(a);
      SetsAdrift(fs, a, b, stamp, id);
      AdriftAhead(g, id, b);
    }
  }

  lemma SetsAdrift(fs: Fs, a: Path, b: Path, stamp: int, id: nat)
    requires Sound(fs) && CanRename(fs.tree, a, b) && Bare(fs.tree, a)
    requires id in fs.handles && fs.handles[id].writable && fs.handles[id].at == Some(a)
    ensures Adrift(DoRename(fs, a, b, stamp), id, b)
  {
    ValidIsClear(fs.tree, b);
    RelocatesAll(fs, a, b, stamp);
    RenamePlaces(fs, a, b, stamp);
  }

  /** An empty disk, a file created in it and kept open: renaming it now is such a case. */
  lemma UnsettledIsReachable(a: string, b: string)
    requires Plain(a) && Plain(b) && a != b
    ensures var root: Tree := map[[] := Dir(0)];
      var ops := [OpenOp(0, Render([a]), Flags(false, true, true, true, false), 0)];
      && Valid(root) && Ordinary(Fresh(root), ops)
      && var fs := After(Fresh(root), ops);
      CanRename(fs.tree, [a], [b]) && Bare(fs.tree, [a]) && !Settled(fs, [a])
  {
    var root: Tree := map[[] := Dir(0)];
    var op := OpenOp(0, Render([a]), Flags(false, true, true, true, false), 0);
    assert Canonical([a]) && Canonical([]);
    RenderKey([a]);
    assert Ordinary(Fresh(root), []) && [] + [op] == [op];
    OrdinarySnoc(Fresh(root), [], op);
    CreatedOpen(a, b);
  }

  lemma CreatedOpen(a: string, b: string)
    requires Plain(a) && Plain(b) && a != b
    ensures var fs := DoOpen(Fresh(map[[] := Dir(0)]), 0, [a], Flags(false, true, true, true, false), 0);
      CanRename(fs.tree, [a], [b]) && Bare(fs.tree, [a]) && !Settled(fs, [a])
  {
    var fs := DoOpen(Fresh(map[[] := Dir(0)]), 0, [a], Flags(false, true, true, true, false), 0);
    assert Parent([a]) == [] && Parent([b]) == [] && [a][0] != [b][0];
    assert fs.tree == map[[] := Dir(0), [a] := File(0)];
    assert [b] !in fs.tree && !([a] <= [b]) && !([b] <= [a]);
    assert fs.handles[0] == Handle([a], Some([a]), true, false);
  }
}
