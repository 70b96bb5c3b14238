/** The cache on top of the junk filter, as the owner stacks them: transparent for what is shown of the disk. */
module CacheOverFilter {
  import opened Wrappers
  import opened Paths
  import opened Upstream
  import opened Cache
  import opened CacheTransparency
  import Filter

  /** The whole disk, and the cache in front of the filter in front of it. */
  datatype Stack = Stack(disk: Tree, stats: map<Path, StatEntry>, readdir: map<Path, DirEntry>,
                         handles: map<nat, Handle>)

  /** The cache over the tree that the filter shows. */
  function View(s: Stack): Fs {
    Fs(Filter.Shown(s.disk), s.stats, s.readdir, s.handles)
  }

  /** The same cache if it stood on the disk itself. */
  function Raw(s: Stack): Fs {
    Fs(s.disk, s.stats, s.readdir, s.handles)
  }

  function Over(disk: Tree, fs: Fs): Stack {
    Stack(disk, fs.stats, fs.readdir, fs.handles)
  }

  /** The call that an operation of the cache makes on the filter. */
  function Lower(op: Op): Option<Filter.Timed> {
    match op
    case MkdirOp(n, stamp) => Some(Filter.Timed(Filter.Call.Mkdir(n), stamp))
    case RemoveOp(n, stamp) => Some(Filter.Timed(Filter.Call.RemoveAll(n), stamp))
    case RenameOp(a, b, stamp) => Some(Filter.Timed(Filter.Call.Rename(a, b), stamp))
    case StatOp(n, _) => Some(Filter.Timed(Filter.Call.Stat(n), 0))
    case OpenOp(_, n, f, stamp) => Some(Filter.Timed(Filter.Call.OpenFile(n, f), stamp))
    case _ => None
  }

  /** A listing as it leaves the filter; an error is passed on. */
  function Sieved(up: Option<Listing>): Option<Listing> {
    if up.None? then None else Some(Listing(Filter.Keep(Filter.Unwanted, up.value.rows), up.value.eof))
  }

  /** The operation as the cache sees it: what a file of the disk lists reaches the cache through the filter. */
  function Above(op: Op): Op {
    match op
    case ReaddirOp(id, now, up) => ReaddirOp(id, now, Sieved(up))
    case _ => op
  }

  /** Bytes written through a handle reach the file it holds; a discarded file holds none. */
  function Through(disk: Tree, h: Handle, meta: Option<int>): Tree {
    if meta.Some? && h.writable && h.at.Some? then Upstream.Write(disk, h.at.value, meta.value) else disk
  }

  /** What open files know after a removal or a rename that was let through. */
  function Followed(s: Stack, op: Op, passed: bool): map<nat, Handle> {
    match op
    case RemoveOp(n, _) =>
      var gone := passed && Key(n) != [] && Key(n) in s.disk;
      map id | id in s.handles :: if gone then Unlinked(s.handles[id], Key(n)) else s.handles[id]
    case RenameOp(a, b, _) =>
      var moved := passed && CanRename(s.disk, Key(a), Key(b));
      map id | id in s.handles :: if moved then Relocated(s.handles[id], Key(a), Key(b)) else s.handles[id]
    case _ => s.handles
  }

  /** Invalidation of the names the operation was given. */
  function Forgotten(s: Stack, op: Op): Fs {
    var fs := View(s);
    match op
    case MkdirOp(n, _) => Invalidate(fs, Key(n))
    case RemoveOp(n, _) => Invalidate(fs, Key(n))
    case RenameOp(a, b, _) => Invalidate(Invalidate(fs, Key(a)), Key(b))
    case OpenOp(_, n, f, _) => if f.Any() then Invalidate(fs, Key(n)) else fs
    case _ => fs
  }

  /** A call of the cache that edits: the filter's tree, the handles that follow it, and what is forgotten. */
  function Edited(s: Stack, op: Op, r: Filter.Result, passed: bool): Stack {
    Over(r.tree, Forgotten(s, op).(handles := Followed(s, op, passed)))
  }

  function Step(s: Stack, op: Op): Stack {
    match op
    case StatOp(n, now) =>
      if StatHit(View(s), Key(n), now) then s
      else s.(stats := s.stats[Key(n) := StatEntry(FilterStat(s.disk, n), now + TTL)])
    case OpenOp(id, n, f, stamp) =>
      var r := Filter.Filtered(s.disk, Filter.Call.OpenFile(n, f), stamp);
      var t := Over(r.tree, Forgotten(s, op));
      if r.reply.Done? then t.(handles := t.handles[id := Handle(Key(n), Some(Key(n)), f.Writable(), false)])
      else if r.reply.Discarding? then t.(handles := t.handles[id := Handle(Key(n), None, f.Writable(), false)])
      else t
    case WriteOp(id, meta) => if id in s.handles then s.(disk := Through(s.disk, s.handles[id], Some(meta))) else s
    case CloseOp(id, flush) =>
      if id !in s.handles then s
      else
        var h := s.handles[id];
        var closed := View(s).(handles := s.handles - {id});
        Over(Through(s.disk, h, flush), if h.writable then Invalidate(closed, h.path) else closed)
    case ReaddirOp(id, now, up) => if id in s.handles then Over(s.disk, DoReaddir(View(s), id, now, Sieved(up))) else s
    case _ =>
      var c := Lower(op).value;
      Edited(s, op, Filter.Filtered(s.disk, c.call, c.stamp), !Filter.NamesJunk(c.call))
  }

  /** The filter's answer to a Stat. */
  function FilterStat(disk: Tree, name: string): Answer {
    if Filter.IsJunk(name) then Missing else StatOf(disk, Key(name))
  }

  /** Which is the shown tree's. */
  lemma FilterStatIsShown(disk: Tree, name: string)
    ensures FilterStat(disk, name) == StatOf(Filter.Shown(disk), Key(name))
  {
    Filter.JunkByKey(name);
    if !Filter.IsJunk(name) { Filter.ShownIn(disk, Key(name)); }
  }

  lemma FilterStatIsReply(disk: Tree, name: string)
    ensures Filter.Filtered(disk, Filter.Call.Stat(name), 0).reply == Filter.Saw(FilterStat(disk, name))
  {
  }

  predicate Junk(op: Op) {
    Lower(op).Some? && Filter.NamesJunk(Lower(op).value.call)
  }

  /**
  A file of the disk answers as such a file does; and a call is within the cache's scope, nothing shown lying below what
  it removes or renames, and its outcome does not hang on something hidden.  What names junk is not restricted.
  */
  ghost predicate Fine(s: Stack, op: Op) {
    && Possible(Raw(s), op)
    && (!Junk(op) ==> InScope(View(s), op) && (Lower(op).Some? ==> Filter.Unaffected(s.disk, Lower(op).value.call)))
  }

  // ------------------------------------------------------------------------------------------------------------
  // Calls that name no junk: the stack is the cache over the shown tree
  // ------------------------------------------------------------------------------------------------------------

  lemma EditIsApply(s: Stack, op: Op)
    requires Fine(s, op) && !Junk(op) && (op.MkdirOp? || op.RemoveOp? || op.RenameOp?)
    ensures View(Step(s, op)) == Apply(View(s), op)
  {
    var c := Lower(op).value;
    Filter.FilterRestrictsExactly(s.disk, c.call, c.stamp);
    match op
    case RemoveOp(n, _) =>
      Filter.JunkByKey(n);
      Filter.ShownIn(s.disk, Key(n));
    case _ =>
  }

  lemma StatIsApply(s: Stack, n: string, now: int)
    ensures View(Step(s, StatOp(n, now))) == DoStat(View(s), Key(n), now)
  {
    FilterStatIsShown(s.disk, n);
  }

  lemma OpenIsApply(s: Stack, id: nat, n: string, f: Flags, stamp: int)
    requires Fine(s, OpenOp(id, n, f, stamp)) && !Filter.IsJunk(n)
    ensures View(Step(s, OpenOp(id, n, f, stamp))) == DoOpen(View(s), id, Key(n), f, stamp)
  {
    Filter.FilterRestrictsExactly(s.disk, Filter.Call.OpenFile(n, f), stamp);
  }

  lemma ThroughShown(disk: Tree, h: Handle, meta: Option<int>)
    requires Stands(Filter.Shown(disk), h)
    ensures Filter.Shown(Through(disk, h, meta)) == Through(Filter.Shown(disk), h, meta)
  {
    if h.at.Some? && meta.Some? && h.writable {
      var q := h.at.value;
      assert !Filter.JunkKey(q);
      Filter.ShownUpdate(disk, q, File(meta.value));
    }
  }

  /** What reaches the cache is what a file of the shown tree would list. */
  lemma SievedLists(s: Stack, id: nat, up: Option<Listing>)
    requires Valid(s.disk) && Placed(View(s)) && id in s.handles && UpstreamLists(Raw(s), id, up)
    ensures UpstreamLists(View(s), id, Sieved(up))
  {
    var h := s.handles[id];
    assert Stands(View(s).tree, h);
    if h.at.Some? {
      var q := h.at.value;
      Filter.ShownIn(s.disk, q);
      if IsDir(s.disk, q) && !h.drained { Filter.FilteredListing(s.disk, q, up.value.rows); }
    }
  }

  lemma AbovePossible(s: Stack, op: Op)
    requires Valid(s.disk) && Placed(View(s)) && Fine(s, op)
    ensures Possible(View(s), Above(op))
  {
    if op.ReaddirOp? { SievedLists(s, op.id, op.up); }
  }

  lemma HandleIsApply(s: Stack, op: Op)
    requires Placed(View(s)) && (op.WriteOp? || op.CloseOp?) && Fine(s, op)
    ensures View(Step(s, op)) == Apply(View(s), op)
  {
    var h := s.handles[op.id];
    assert Stands(View(s).tree, h);
    ThroughShown(s.disk, h, if op.WriteOp? then Some(op.meta) else op.flush);
  }

  lemma DecentIsApply(s: Stack, op: Op)
    requires Placed(View(s)) && Fine(s, op) && !Junk(op)
    ensures View(Step(s, op)) == Apply(View(s), Above(op))
  {
    match op
    case StatOp(n, now) => StatIsApply(s, n, now);
    case OpenOp(id, n, f, stamp) => OpenIsApply(s, id, n, f, stamp);
    case WriteOp(_, _) => HandleIsApply(s, op);
    case CloseOp(_, _) => HandleIsApply(s, op);
    case ReaddirOp(_, _, _) =>
    case _ => EditIsApply(s, op);
  }

  // ------------------------------------------------------------------------------------------------------------
  // Calls that name junk: nothing shown changes
  // ------------------------------------------------------------------------------------------------------------

  lemma ForgetKeeps(fs: Fs, p: Path)
    requires Right(fs)
    ensures Right(Invalidate(fs, p))
  {
  }

  lemma JunkEditKeeps(s: Stack, op: Op)
    requires Right(View(s)) && Junk(op) && (op.MkdirOp? || op.RemoveOp? || op.RenameOp?)
    ensures Right(View(Step(s, op)))
  {
    var fs, t := View(s), Step(s, op);
    assert t.disk == s.disk && t.handles == s.handles;
    match op {
      case MkdirOp(n, _) => ForgetKeeps(fs, Key(n));
      case RemoveOp(n, _) => ForgetKeeps(fs, Key(n));
      case RenameOp(a, b, _) =>
        ForgetKeeps(fs, Key(a));
        ForgetKeeps(Invalidate(fs, Key(a)), Key(b));
    }
    assert View(t) == Forgotten(s, op);
  }

  lemma JunkOpenShape(s: Stack, id: nat, n: string, f: Flags, stamp: int)
    requires Filter.IsJunk(n)
    ensures var base := Forgotten(s, OpenOp(id, n, f, stamp));
      View(Step(s, OpenOp(id, n, f, stamp))) ==
        if f.Writable() then base.(handles := base.handles[id := Handle(Key(n), None, true, false)]) else base
  {
  }

  lemma JunkOpenKeeps(s: Stack, id: nat, n: string, f: Flags, stamp: int)
    requires Right(View(s)) && Filter.IsJunk(n) && id !in s.handles
    ensures Right(View(Step(s, OpenOp(id, n, f, stamp))))
  {
    JunkOpenShape(s, id, n, f, stamp);
    var base := if f.Any() then Invalidate(View(s), Key(n)) else View(s);
    if f.Any() { ForgetKeeps(View(s), Key(n)); }
    HandleToNothing(base, id, Handle(Key(n), None, true, false));
  }

  lemma HandleToNothing(fs: Fs, id: nat, h: Handle)
    requires Right(fs) && id !in fs.handles && h.at.None?
    ensures Right(fs.(handles := fs.handles[id := h]))
  {
    DirtyGrows(fs, fs.handles[id := h]);
    HandlesKeep(fs, fs.handles[id := h]);
  }

  // ------------------------------------------------------------------------------------------------------------
  // Every call
  // ------------------------------------------------------------------------------------------------------------

  lemma ShownClear(t: Tree, p: Path)
    requires Valid(t) && !Filter.JunkKey(p)
    ensures Clear(Filter.Shown(t), p)
  {
    ValidIsClear(t, p);
  }

  lemma DecentClears(s: Stack, op: Op)
    requires Valid(s.disk) && !Junk(op)
    ensures Clears(View(s).tree, op)
  {
    match op
    case MkdirOp(n, _) =>
      Filter.JunkByKey(n);
      ShownClear(s.disk, Key(n));
    case RenameOp(_, b, _) =>
      Filter.JunkByKey(b);
      ShownClear(s.disk, Key(b));
    case OpenOp(_, n, _, _) =>
      Filter.JunkByKey(n);
      ShownClear(s.disk, Key(n));
    case _ =>
  }

  lemma InnerIsValid(t: Tree, c: Filter.Call, stamp: int)
    requires Valid(t)
    ensures Valid(Filter.Inner(t, c, stamp).tree)
  {
    match c
    case Mkdir(name) => CallsAreValid(t, name);
    case OpenFile(name, _) => CallsAreValid(t, name);
    case Put(name, meta) => WriteIsValid(t, Key(name), meta);
    case RemoveAll(name) => CallsAreValid(t, name);
    case Rename(_, to) => CallsAreValid(t, to);
    case Stat(_) =>
  }

  lemma JunkTouchesNothing(t: Tree, c: Filter.Call, stamp: int)
    ensures Filter.Filtered(t, c, stamp).tree == if Filter.NamesJunk(c) then t else Filter.Inner(t, c, stamp).tree
  {
  }

  lemma DiskAfter(s: Stack, op: Op)
    requires Lower(op).Some?
    ensures var c := Lower(op).value; Step(s, op).disk == Filter.Filtered(s.disk, c.call, c.stamp).tree
  {
    match op
    case StatOp(n, now) => JunkTouchesNothing(s.disk, Filter.Call.Stat(n), 0);
    case OpenOp(_, _, _, _) => OpenedDisk(s, op);
    case _ => EditedDisk(s, op);
  }

  lemma OpenedDisk(s: Stack, op: Op)
    requires op.OpenOp?
    ensures var c := Lower(op).value; Step(s, op).disk == Filter.Filtered(s.disk, c.call, c.stamp).tree
  {
  }

  lemma EditedDisk(s: Stack, op: Op)
    requires op.MkdirOp? || op.RemoveOp? || op.RenameOp?
    ensures var c := Lower(op).value; Step(s, op).disk == Filter.Filtered(s.disk, c.call, c.stamp).tree
  {
  }

  lemma DiskWritten(s: Stack, op: Op)
    requires Valid(s.disk) && Lower(op).None?
    ensures Valid(Step(s, op).disk)
  {
    if (op.WriteOp? || op.CloseOp?) && op.id in s.handles && s.handles[op.id].at.Some? {
      var meta := if op.WriteOp? then Some(op.meta) else op.flush;
      if meta.Some? { WriteIsValid(s.disk, s.handles[op.id].at.value, meta.value); }
    }
  }

  /** Whatever is called, scope or none, the disk stays a file system's. */
  lemma DiskIsValid(s: Stack, op: Op)
    requires Valid(s.disk)
    ensures Valid(Step(s, op).disk)
  {
    if Lower(op).Some? {
      DiskAfter(s, op);
      JunkTouchesNothing(s.disk, Lower(op).value.call, Lower(op).value.stamp);
      InnerIsValid(s.disk, Lower(op).value.call, Lower(op).value.stamp);
    } else {
      DiskWritten(s, op);
    }
  }

  /** What every state of the stack satisfies. */
  ghost predicate Stacked(s: Stack) {
    Valid(s.disk) && Right(View(s))
  }

  lemma DecentKeeps(s: Stack, op: Op)
    requires Stacked(s) && Fine(s, op) && !Junk(op)
    ensures Right(View(Step(s, op)))
  {
    DecentIsApply(s, op);
    DecentClears(s, op);
    AbovePossible(s, op);
    Filter.ShownIn(s.disk, []);
    ApplyKeeps(View(s), Above(op));
  }

  lemma JunkKeeps(s: Stack, op: Op)
    requires Stacked(s) && Fine(s, op) && Junk(op)
    ensures Right(View(Step(s, op)))
  {
    match op
    case StatOp(n, now) =>
      StatIsApply(s, n, now);
      StatKeeps(View(s), Key(n), now);
    case OpenOp(id, n, f, stamp) => JunkOpenKeeps(s, id, n, f, stamp);
    case _ => JunkEditKeeps(s, op);
  }

  lemma StepKeeps(s: Stack, op: Op)
    requires Stacked(s) && Fine(s, op)
    ensures Stacked(Step(s, op))
  {
    DiskIsValid(s, op);
    if Junk(op) { JunkKeeps(s, op); } else { DecentKeeps(s, op); }
  }

  // ------------------------------------------------------------------------------------------------------------
  // Runs
  // ------------------------------------------------------------------------------------------------------------

  function Run(disk: Tree, ops: seq<Op>): Stack {
    if ops == [] then Stack(disk, map[], map[], map[]) else Step(Run(disk, ops[..|ops| - 1]), ops[|ops| - 1])
  }

  ghost predicate FineRun(disk: Tree, ops: seq<Op>) {
    ops == [] || (FineRun(disk, ops[..|ops| - 1]) && Fine(Run(disk, ops[..|ops| - 1]), ops[|ops| - 1]))
  }

  lemma {:induction false} RunKeeps(disk: Tree, ops: seq<Op>)
    requires Valid(disk) && FineRun(disk, ops)
    ensures Stacked(Run(disk, ops))
  {
    if ops != [] {
      RunKeeps(disk, ops[..|ops| - 1]);
      StepKeeps(Run(disk, ops[..|ops| - 1]), ops[|ops| - 1]);
    }
  }

  /**
  The whole stack: after any run, junk names and all, whose other calls are within the cache's scope and do not hang on
  something hidden, a Stat through the cache answers what the filter would answer for the disk as it is now.
  */
  lemma StackIsTransparent(disk: Tree, ops: seq<Op>, name: string, now: int)
    requires Valid(disk) && FineRun(disk, ops)
    ensures var s := Run(disk, ops);
      var mine, truth := StatAnswer(View(s), Key(name), now), FilterStat(s.disk, name);
      && Filter.Filtered(s.disk, Filter.Call.Stat(name), 0).reply == Filter.Saw(truth)
      && Loose(mine, truth) && (Key(name) !in Dirty(View(s)) ==> mine == truth)
  {
    RunKeeps(disk, ops);
    FilterStatIsReply(Run(disk, ops).disk, name);
    FilterStatIsShown(Run(disk, ops).disk, name);
  }

  /**
  And whatever the disk's own file lists when it is asked, clutter and all, a full listing of a shown directory names
  exactly its shown children, each row right.
  */
  lemma StackListsShown(disk: Tree, ops: seq<Op>, id: nat, now: int, up: Option<Listing>)
    requires Valid(disk) && FineRun(disk, ops) && Fine(Run(disk, ops), ReaddirOp(id, now, up))
    ensures var fs := View(Run(disk, ops));
      && id in fs.handles
      && (IsDir(fs.tree, fs.handles[id].path) ==>
           var mine := ReaddirAnswer(fs, id, now, Sieved(up));
           mine.Some? && DirOk(fs.tree, Dirty(fs), fs.handles[id].path, mine.value.rows))
  {
    var s := Run(disk, ops);
    RunKeeps(disk, ops);
    SievedLists(s, id, up);
    ListingIsRight(View(s), id, now, Sieved(up));
  }
}
