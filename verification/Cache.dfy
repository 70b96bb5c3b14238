/** The Stat and Readdir cache of the WebDAV owner, one call at a time. */
module Cache {
  import opened Wrappers
  import opened Paths
  import opened Upstream

  /** Milliseconds. */
  const TTL := 250

  datatype StatEntry = StatEntry(answer: Answer, expires: int)

  datatype DirEntry = DirEntry(listing: Listing, expires: int)

  /** An open file: the name it was opened under, and where the file it holds is now, if it still has a name. */
  datatype Handle = Handle(path: Path, at: Option<Path>, writable: bool, drained: bool)

  /** The upstream tree, the two cache maps and the open files. */
  datatype Fs = Fs(tree: Tree, stats: map<Path, StatEntry>, readdir: map<Path, DirEntry>, handles: map<nat, Handle>)

  function Invalidate(fs: Fs, p: Path): Fs {
    fs.(stats := fs.stats - {p, Parent(p)}, readdir := fs.readdir - {Parent(p)})
  }

  function DoMkdir(fs: Fs, p: Path, stamp: int): Fs {
    Invalidate(fs.(tree := Mkdir(fs.tree, p, stamp)), p)
  }

  function Unlinked(h: Handle, p: Path): Handle {
    if h.at.Some? && p <= h.at.value then h.(at := None) else h
  }

  function DoRemoveAll(fs: Fs, p: Path, stamp: int): Fs {
    var removed := p != [] && p in fs.tree;
    Invalidate(fs.(tree := RemoveAll(fs.tree, p, stamp),
                   handles := map id | id in fs.handles ::
                               if removed then Unlinked(fs.handles[id], p) else fs.handles[id]),
               p)
  }

  function Relocated(h: Handle, a: Path, b: Path): Handle {
    if h.at.Some? && a <= h.at.value then h.(at := Some(b + h.at.value[|a|..])) else Unlinked(h, b)
  }

  function DoRename(fs: Fs, a: Path, b: Path, stamp: int): Fs {
    var moved := CanRename(fs.tree, a, b);
    var up := fs.(tree := Rename(fs.tree, a, b, stamp),
                  handles := map id | id in fs.handles ::
                              if moved then Relocated(fs.handles[id], a, b) else fs.handles[id]);
    Invalidate(Invalidate(up, a), b)
  }

  predicate StatHit(fs: Fs, p: Path, now: int) {
    p in fs.stats && now < fs.stats[p].expires
  }

  function StatAnswer(fs: Fs, p: Path, now: int): Answer {
    if StatHit(fs, p, now) then fs.stats[p].answer else StatOf(fs.tree, p)
  }

  function DoStat(fs: Fs, p: Path, now: int): Fs {
    if StatHit(fs, p, now) then fs
    else fs.(stats := fs.stats[p := StatEntry(StatOf(fs.tree, p), now + TTL)])
  }

  function DoOpen(fs: Fs, id: nat, p: Path, f: Flags, stamp: int): Fs {
    var dropped := if f.Any() then Invalidate(fs, p) else fs;
    if !CanOpen(fs.tree, p, f) then dropped
    else dropped.(tree := Open(fs.tree, p, f, stamp),
                  handles := fs.handles[id := Handle(p, Some(p), f.Writable(), false)])
  }

  /** Bytes written through a handle reach the file it holds, under whatever name that file now has. */
  function DoWrite(fs: Fs, id: nat, meta: int): Fs
    requires id in fs.handles
  {
    var h := fs.handles[id];
    if h.writable && h.at.Some? then fs.(tree := Write(fs.tree, h.at.value, meta)) else fs
  }

  /** Closing may still flush; then the handle's name is invalidated. */
  function DoClose(fs: Fs, id: nat, flush: Option<int>): Fs
    requires id in fs.handles
  {
    var flushed := if flush.Some? then DoWrite(fs, id, flush.value) else fs;
    var closed := flushed.(handles := fs.handles - {id});
    if fs.handles[id].writable then Invalidate(closed, fs.handles[id].path) else closed
  }

  predicate DirHit(fs: Fs, p: Path, now: int) {
    p in fs.readdir && now < fs.readdir[p].expires
  }

  function Seed(stats: map<Path, StatEntry>, p: Path, rows: seq<Info>, expires: int): map<Path, StatEntry> {
    if rows == [] then stats
    else
      var row := rows[|rows| - 1];
      Seed(stats, p, rows[..|rows| - 1], expires)[p + [row.name] := StatEntry(Found(row), expires)]
  }

  /**
  What the open file itself answers: it lists the directory it holds, wherever that is now, and nothing the second time;
  a file gives an error, and a directory that is gone an error or nothing.
  */
  ghost predicate UpstreamLists(fs: Fs, id: nat, up: Option<Listing>)
    requires id in fs.handles
  {
    var h := fs.handles[id];
    match h.at
    case None => up.None? || up.value.rows == []
    case Some(q) =>
      if !IsDir(fs.tree, q) then up.None?
      else if h.drained then up == Some(Listing([], false))
      else up.Some? && Lists(fs.tree, q, up.value.rows)
  }

  /** A full Readdir; up is what the upstream file answers if it is asked. */
  function DoReaddir(fs: Fs, id: nat, now: int, up: Option<Listing>): Fs
    requires id in fs.handles
  {
    var h := fs.handles[id];
    if DirHit(fs, h.path, now) then fs
    else
      var asked := fs.(handles := fs.handles[id := h.(drained := true)]);
      if up.None? then asked
      else asked.(readdir := fs.readdir[h.path := DirEntry(up.value, now + TTL)],
                  stats := Seed(fs.stats, h.path, up.value.rows, now + TTL))
  }

  function ReaddirAnswer(fs: Fs, id: nat, now: int, up: Option<Listing>): Option<Listing>
    requires id in fs.handles
  {
    if DirHit(fs, fs.handles[id].path, now) then Some(fs.readdir[fs.handles[id].path].listing) else up
  }

  /** The cache object.  Its upstream is the tree; names arrive as strings and are reduced to keys first. */
  class CachedFS {
    var upstream: Tree
    var stats: map<Path, StatEntry>
    var readdir: map<Path, DirEntry>
    var handles: map<nat, Handle>

    ghost function View(): Fs
      reads this
    {
      Fs(upstream, stats, readdir, handles)
    }

    constructor (upstream: Tree)
      ensures View() == Fs(upstream, map[], map[], map[])
    {
      this.upstream, stats, readdir, handles := upstream, map[], map[], map[];
    }

    method InvalidateName(name: string)
      modifies this`stats, this`readdir
      ensures View() == Invalidate(old(View()), Key(name))
    {
      var n := Key(name);
      stats := stats - {n};
      var parent := Parent(n);
      readdir := readdir - {parent};
      stats := stats - {parent};
      assert stats == old(stats) - {n, parent};
    }

    method MkdirName(name: string, stamp: int)
      modifies this`upstream, this`stats, this`readdir
      ensures View() == DoMkdir(old(View()), Key(name), stamp)
    {
      upstream := Upstream.Mkdir(upstream, Key(name), stamp);
      InvalidateName(name);
    }

    method RemoveName(name: string, stamp: int)
      modifies this
      ensures View() == DoRemoveAll(old(View()), Key(name), stamp)
    {
      var p := Key(name);
      var removed := p != [] && p in upstream;
      upstream := Upstream.RemoveAll(upstream, p, stamp);
      handles := map id | id in handles :: if removed then Unlinked(handles[id], p) else handles[id];
      InvalidateName(name);
    }

    method RenameName(oldName: string, newName: string, stamp: int)
      modifies this
      ensures View() == DoRename(old(View()), Key(oldName), Key(newName), stamp)
    {
      var a, b := Key(oldName), Key(newName);
      var moved := CanRename(upstream, a, b);
      upstream := Upstream.Rename(upstream, a, b, stamp);
      handles := map id | id in handles :: if moved then Relocated(handles[id], a, b) else handles[id];
      InvalidateName(oldName);
      InvalidateName(newName);
    }

    method Stat(name: string, now: int) returns (answer: Answer)
      modifies this`stats
      ensures View() == DoStat(old(View()), Key(name), now)
      ensures answer == StatAnswer(old(View()), Key(name), now)
    {
      var n := Key(name);
      if n in stats && now < stats[n].expires {
        return stats[n].answer;
      }
      answer := StatOf(upstream, n);
      stats := stats[n := StatEntry(answer, now + TTL)];
    }

    method OpenFile(name: string, id: nat, f: Flags, stamp: int) returns (ok: bool)
      modifies this
      ensures View() == DoOpen(old(View()), id, Key(name), f, stamp)
      ensures ok == CanOpen(old(upstream), Key(name), f)
    {
      if f.wronly || f.rdwr || f.create || f.trunc || f.append {
        InvalidateName(name);
      }
      var p := Key(name);
      ok := CanOpen(upstream, p, f);
      if !ok {
        return;
      }
      upstream := Upstream.Open(upstream, p, f, stamp);
      handles := handles[id := Handle(p, Some(p), f.wronly || f.rdwr, false)];
    }

    /** The name kept in the handle is the one it was opened under. */
    method CloseFile(id: nat, name: string, flush: Option<int>)
      requires id in handles && Key(name) == handles[id].path
      modifies this
      ensures View() == DoClose(old(View()), id, flush)
    {
      var h := handles[id];
      if flush.Some? && h.writable && h.at.Some? {
        upstream := Upstream.Write(upstream, h.at.value, flush.value);
      }
      handles := handles - {id};
      if h.writable {
        InvalidateName(name);
      }
    }

    method Readdir(id: nat, now: int, up: Option<Listing>) returns (answer: Option<Listing>)
      requires id in handles
      modifies this`stats, this`readdir, this`handles
      ensures View() == DoReaddir(old(View()), id, now, up)
      ensures answer == ReaddirAnswer(old(View()), id, now, up)
    {
      var n := handles[id].path;
      if n in readdir && now < readdir[n].expires {
        return Some(readdir[n].listing);
      }
      handles := handles[id := handles[id].(drained := true)];
      answer := up;
      if up.Some? {
        var infos := up.value.rows;
        readdir := readdir[n := DirEntry(up.value, now + TTL)];
        var i := 0;
        while i < |infos|
          invariant 0 <= i <= |infos|
          invariant stats == Seed(old(stats), n, infos[..i], now + TTL)
          invariant readdir == old(readdir)[n := DirEntry(up.value, now + TTL)]
          invariant handles == old(handles)[id := old(handles)[id].(drained := true)]
        {
          var childPath := n + [infos[i].name];
          stats := stats[childPath := StatEntry(Found(infos[i]), now + TTL)];
          assert infos[..i + 1][..i] == infos[..i];
          i := i + 1;
        }
        assert infos[..i] == infos;
      }
    }
  }
}
