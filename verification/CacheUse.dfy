/** What the cache passes on to the file system below it, and what it saves the file system from being asked. */
module CacheUse {
  import opened Wrappers
  import opened Paths
  import opened Upstream
  import opened Cache
  import opened CacheTransparency
  import opened CacheEdges

  // ------------------------------------------------------------------------------------------------------------
  // Nothing is kept from the disk
  // ------------------------------------------------------------------------------------------------------------

  /** An open file of the file system itself: the name it was opened under and the place of what it holds. */
  datatype Open = Open(path: Path, at: Option<Path>, writable: bool)

  /** The file system used without a cache. */
  datatype Direct = Direct(tree: Tree, files: map<nat, Open>)

  function Strip(h: Handle): Open {
    Open(h.path, h.at, h.writable)
  }

  function Files(handles: map<nat, Handle>): map<nat, Open> {
    map id | id in handles :: Strip(handles[id])
  }

  function Below(fs: Fs): Direct {
    Direct(fs.tree, Files(fs.handles))
  }

  /** Where a file is after what stood at or below p is gone. */
  function Without(at: Option<Path>, p: Path): Option<Path> {
    if at.Some? && p <= at.value then None else at
  }

  /** Where it is after a was moved to b, over what stood there. */
  function MovedTo(at: Option<Path>, a: Path, b: Path): Option<Path> {
    if at.Some? && a <= at.value then Some(b + at.value[|a|..]) else Without(at, b)
  }

  function Written(d: Direct, id: nat, meta: int): Direct {
    if id in d.files && d.files[id].writable && d.files[id].at.Some?
    then d.(tree := Upstream.Write(d.tree, d.files[id].at.value, meta)) else d
  }

  function Cut(f: Open, p: Path): Open {
    f.(at := Without(f.at, p))
  }

  function Shifted(f: Open, a: Path, b: Path): Open {
    f.(at := MovedTo(f.at, a, b))
  }

  function Gone(d: Direct, p: Path, stamp: int): Direct {
    if p == [] || p !in d.tree then d
    else Direct(Upstream.RemoveAll(d.tree, p, stamp), map id | id in d.files :: Cut(d.files[id], p))
  }

  function Moved(d: Direct, a: Path, b: Path, stamp: int): Direct {
    if !CanRename(d.tree, a, b) then d
    else Direct(Upstream.Rename(d.tree, a, b, stamp), map id | id in d.files :: Shifted(d.files[id], a, b))
  }

  /** The same call made on the file system. */
  function Made(d: Direct, op: Op): Direct {
    match op
    case MkdirOp(n, stamp) => d.(tree := Upstream.Mkdir(d.tree, Key(n), stamp))
    case RemoveOp(n, stamp) => Gone(d, Key(n), stamp)
    case RenameOp(a, b, stamp) => Moved(d, Key(a), Key(b), stamp)
    case OpenOp(id, n, f, stamp) =>
      if !CanOpen(d.tree, Key(n), f) then d
      else Direct(Upstream.Open(d.tree, Key(n), f, stamp), d.files[id := Open(Key(n), Some(Key(n)), f.Writable())])
    case WriteOp(id, meta) => Written(d, id, meta)
    case CloseOp(id, flush) =>
      var flushed := if flush.Some? then Written(d, id, flush.value) else d;
      flushed.(files := d.files - {id})
    case StatOp(_, _) => d
    case ReaddirOp(_, _, _) => d
  }

  function MadeAll(d: Direct, ops: seq<Op>): Direct {
    if ops == [] then d else Made(MadeAll(d, ops[..|ops| - 1]), ops[|ops| - 1])
  }

  lemma MadeDir(fs: Fs, n: string, stamp: int)
    ensures Below(Apply(fs, MkdirOp(n, stamp))) == Made(Below(fs), MkdirOp(n, stamp))
  {
  }

  lemma CutBelow(handles: map<nat, Handle>, p: Path)
    ensures Files(map id | id in handles :: Unlinked(handles[id], p))
      == map id | id in Files(handles) :: Cut(Files(handles)[id], p)
  {
  }

  lemma MadeRemoval(fs: Fs, p: Path, stamp: int)
    ensures Below(DoRemoveAll(fs, p, stamp)) == Gone(Below(fs), p, stamp)
  {
    CutBelow(fs.handles, p);
    if p == [] || p !in fs.tree { assert DoRemoveAll(fs, p, stamp).handles == fs.handles; }
  }

  lemma ShiftedBelow(handles: map<nat, Handle>, a: Path, b: Path)
    ensures Files(map id | id in handles :: Relocated(handles[id], a, b))
      == map id | id in Files(handles) :: Shifted(Files(handles)[id], a, b)
  {
  }

  lemma MadeRename(fs: Fs, a: Path, b: Path, stamp: int)
    ensures Below(DoRename(fs, a, b, stamp)) == Moved(Below(fs), a, b, stamp)
  {
    ShiftedBelow(fs.handles, a, b);
    if !CanRename(fs.tree, a, b) { assert DoRename(fs, a, b, stamp).handles == fs.handles; }
  }

  lemma OneMoreFile(handles: map<nat, Handle>, id: nat, h: Handle)
    ensures Files(handles[id := h]) == Files(handles)[id := Strip(h)]
  {
  }

  lemma OpenedBelow(fs: Fs, id: nat, p: Path, f: Flags, stamp: int)
    requires CanOpen(fs.tree, p, f)
    ensures Below(DoOpen(fs, id, p, f, stamp))
      == Direct(Upstream.Open(fs.tree, p, f, stamp), Below(fs).files[id := Open(p, Some(p), f.Writable())])
  {
    OneMoreFile(fs.handles, id, Handle(p, Some(p), f.Writable(), false));
  }

  lemma MadeOpen(fs: Fs, op: Op)
    requires op.OpenOp?
    ensures Below(Apply(fs, op)) == Made(Below(fs), op)
  {
    var p := Key(op.name);
    if CanOpen(fs.tree, p, op.flags) { OpenedBelow(fs, op.id, p, op.flags, op.stamp); }
  }

  lemma MadeHandle(fs: Fs, op: Op)
    requires op.WriteOp? || op.CloseOp?
    ensures Below(Apply(fs, op)) == Made(Below(fs), op)
  {
    if op.id !in fs.handles {
      assert Below(fs).files - {op.id} == Below(fs).files;
    } else if op.CloseOp? {
      var g := Apply(fs, op);
      assert g.handles == fs.handles - {op.id};
      assert Below(g).files == Below(fs).files - {op.id};
    }
  }

  lemma MadeLook(fs: Fs, op: Op)
    requires op.StatOp? || op.ReaddirOp?
    ensures Below(Apply(fs, op)) == Made(Below(fs), op)
  {
  }

  lemma MadeOne(fs: Fs, op: Op)
    ensures Below(Apply(fs, op)) == Made(Below(fs), op)
  {
    match op
    case OpenOp(_, _, _, _) => MadeOpen(fs, op);
    case WriteOp(_, _) => MadeHandle(fs, op);
    case CloseOp(_, _) => MadeHandle(fs, op);
    case StatOp(_, _) => MadeLook(fs, op);
    case ReaddirOp(_, _, _) => MadeLook(fs, op);
    case MkdirOp(n, stamp) => MadeDir(fs, n, stamp);
    case RemoveOp(n, stamp) => MadeRemoval(fs, Key(n), stamp);
    case RenameOp(a, b, stamp) => MadeRename(fs, Key(a), Key(b), stamp);
  }

  /** Whatever is called, in or out of any scope, the disk and the open files are what they would be without a cache. */
  lemma {:induction false} DiskIsAsWithout(fs: Fs, ops: seq<Op>)
    ensures Below(After(fs, ops)) == MadeAll(Below(fs), ops)
  {
    if ops != [] {
      DiskIsAsWithout(fs, ops[..|ops| - 1]);
      MadeOne(After(fs, ops[..|ops| - 1]), ops[|ops| - 1]);
    }
  }

  /** So after an ordinary run a Stat through the cache answers what it would after the run without one. */
  lemma CacheIsInvisible(tree: Tree, ops: seq<Op>, name: string, now: int)
    requires Valid(tree) && Ordinary(Fresh(tree), ops)
    ensures var mine := StatAnswer(After(Fresh(tree), ops), Key(name), now);
      var truth := StatOf(MadeAll(Direct(tree, map[]), ops).tree, Key(name));
      Loose(mine, truth) && (Key(name) !in Dirty(After(Fresh(tree), ops)) ==> mine == truth)
  {
    DiskIsAsWithout(Fresh(tree), ops);
    StatIsTransparent(tree, ops, name, now);
    assert Below(Fresh(tree)) == Direct(tree, map[]);
  }

  // ------------------------------------------------------------------------------------------------------------
  // What is not asked for again
  // ------------------------------------------------------------------------------------------------------------

  /** The names whose entries a call drops: those it edits, or may have edited, and their directories. */
  function Drops(fs: Fs, op: Op): set<Path> {
    match op
    case MkdirOp(n, _) => {Key(n), Parent(Key(n))}
    case RemoveOp(n, _) => {Key(n), Parent(Key(n))}
    case RenameOp(a, b, _) => {Key(a), Parent(Key(a)), Key(b), Parent(Key(b))}
    case OpenOp(_, n, f, _) => if f.Any() then {Key(n), Parent(Key(n))} else {}
    case CloseOp(id, _) =>
      if id in fs.handles && fs.handles[id].writable then {fs.handles[id].path, Parent(fs.handles[id].path)} else {}
    case _ => {}
  }

  /** The call does not read an earlier clock. */
  predicate NotBefore(op: Op, t: int) {
    match op
    case StatOp(_, now) => now >= t
    case ReaddirOp(_, now, _) => now >= t
    case _ => true
  }

  /** Until this instant the cache answers a Stat of p by itself. */
  predicate Serves(fs: Fs, p: Path, until: int) {
    p in fs.stats && fs.stats[p].expires >= until
  }

  /** Until this instant it answers a full listing of p by itself. */
  predicate ServesDir(fs: Fs, p: Path, until: int) {
    p in fs.readdir && fs.readdir[p].expires >= until
  }

  lemma {:induction false} SeedServes(stats: map<Path, StatEntry>, d: Path, rows: seq<Info>, expires: int, p: Path)
    requires p in stats
    ensures p in Seed(stats, d, rows, expires)
    ensures Seed(stats, d, rows, expires)[p] == stats[p] || Seed(stats, d, rows, expires)[p].expires == expires
  {
    if rows != [] { SeedServes(stats, d, rows[..|rows| - 1], expires, p); }
  }

  lemma EditServes(fs: Fs, op: Op, p: Path, until: int)
    requires p !in Drops(fs, op) && !op.ReaddirOp? && !op.StatOp?
    ensures Serves(fs, p, until) ==> Serves(Apply(fs, op), p, until)
    ensures ServesDir(fs, p, until) ==> ServesDir(Apply(fs, op), p, until)
  {
  }

  lemma LookServes(fs: Fs, op: Op, p: Path, t: int)
    requires NotBefore(op, t) && (op.ReaddirOp? || op.StatOp?)
    ensures Serves(fs, p, t + 250) ==> Serves(Apply(fs, op), p, t + 250)
    ensures ServesDir(fs, p, t + 250) ==> ServesDir(Apply(fs, op), p, t + 250)
  {
    if Serves(fs, p, t + 250) && op.ReaddirOp? && op.up.Some? {
      var path := if op.id in fs.handles then fs.handles[op.id].path else [];
      SeedServes(fs.stats, path, op.up.value.rows, op.now + TTL, p);
    }
  }

  /** No call of the run drops what is kept about p. */
  ghost predicate Spared(fs: Fs, ops: seq<Op>, p: Path, t: int) {
    forall i | 0 <= i < |ops| :: SparedAt(fs, ops, i, p, t)
  }

  ghost predicate SparedAt(fs: Fs, ops: seq<Op>, i: nat, p: Path, t: int)
    requires i < |ops|
  {
    p !in Drops(After(fs, ops[..i]), ops[i]) && NotBefore(ops[i], t)
  }

  lemma SparedFront(fs: Fs, ops: seq<Op>, p: Path, t: int)
    requires ops != [] && Spared(fs, ops, p, t)
    ensures var n := |ops| - 1;
      Spared(fs, ops[..n], p, t) && p !in Drops(After(fs, ops[..n]), ops[n]) && NotBefore(ops[n], t)
  {
    var n := |ops| - 1;
    var front := ops[..n];
    forall i | 0 <= i < n
      ensures SparedAt(fs, front, i, p, t)
    {
      assert front[..i] == ops[..i];
      assert SparedAt(fs, ops, i, p, t);
    }
    assert SparedAt(fs, ops, n, p, t);
  }

  lemma OneServes(fs: Fs, op: Op, p: Path, t: int)
    requires p !in Drops(fs, op) && NotBefore(op, t)
    ensures Serves(fs, p, t + 250) ==> Serves(Apply(fs, op), p, t + 250)
    ensures ServesDir(fs, p, t + 250) ==> ServesDir(Apply(fs, op), p, t + 250)
  {
    if op.ReaddirOp? || op.StatOp? { LookServes(fs, op, p, t); } else { EditServes(fs, op, p, t + 250); }
  }

  lemma {:induction false} ServesOn(fs: Fs, ops: seq<Op>, p: Path, t: int)
    requires Spared(fs, ops, p, t)
    ensures Serves(fs, p, t + 250) ==> Serves(After(fs, ops), p, t + 250)
    ensures ServesDir(fs, p, t + 250) ==> ServesDir(After(fs, ops), p, t + 250)
  {
    if ops != [] {
      var front, op := ops[..|ops| - 1], ops[|ops| - 1];
      SparedFront(fs, ops, p, t);
      ServesOn(fs, front, p, t);
      OneServes(After(fs, front), op, p, t);
    }
  }

  /** An answer that the upstream was asked for at t is kept for 250 ms, and no longer unless it is asked again. */
  lemma StatIsKept(fs: Fs, p: Path, t: int, later: int)
    requires !StatHit(fs, p, t)
    ensures StatHit(DoStat(fs, p, t), p, later) <==> later < t + 250
    ensures StatAnswer(DoStat(fs, p, t), p, later) == StatOf(fs.tree, p)
    ensures later < t + 250 ==> DoStat(DoStat(fs, p, t), p, later) == DoStat(fs, p, t)
  {
  }

  /** Meanwhile it serves every Stat of the name, whatever is called but edits of the name or in it. */
  lemma StatIsAskedOnce(fs: Fs, p: Path, t: int, ops: seq<Op>, later: int)
    requires !StatHit(fs, p, t) && Spared(DoStat(fs, p, t), ops, p, t) && later < t + 250
    ensures StatHit(After(DoStat(fs, p, t), ops), p, later)
  {
    ServesOn(DoStat(fs, p, t), ops, p, t);
  }

  /** Opening with any flag that may change the file forgets it and its directory, even if the open then fails. */
  lemma OpenForgets(fs: Fs, id: nat, p: Path, f: Flags, stamp: int, now: int)
    requires f.wronly || f.rdwr || f.create || f.trunc || f.append
    ensures var g := DoOpen(fs, id, p, f, stamp);
      !StatHit(g, p, now) && !StatHit(g, Parent(p), now) && !DirHit(g, Parent(p), now)
  {
  }

  /** And a listing asked for at t serves, until t + 250 ms, the listings of the directory and the Stats of its rows. */
  lemma ListingIsAskedOnce(fs: Fs, id: nat, t: int, l: Listing, later: int)
    requires id in fs.handles && !DirHit(fs, fs.handles[id].path, t)
    requires forall j, k | 0 <= j < k < |l.rows| :: l.rows[j].name != l.rows[k].name
    ensures var g, p := DoReaddir(fs, id, t, Some(l)), fs.handles[id].path;
      && (DirHit(g, p, later) <==> later < t + 250)
      && (forall i | 0 <= i < |l.rows| ::
           && (StatHit(g, p + [l.rows[i].name], later) <==> later < t + 250)
           && (later < t + 250 ==> StatAnswer(g, p + [l.rows[i].name], later) == Found(l.rows[i])))
  {
    var g, p := DoReaddir(fs, id, t, Some(l)), fs.handles[id].path;
    StoredListing(fs, id, t, l);
    forall i | 0 <= i < |l.rows|
      ensures p + [l.rows[i].name] in g.stats && g.stats[p + [l.rows[i].name]] == StatEntry(Found(l.rows[i]), t + TTL)
    {
      SeedHas(fs.stats, p, l.rows, t + TTL, i);
    }
  }

  /** For as long as nothing in it is edited. */
  lemma ListingServesOn(fs: Fs, id: nat, t: int, l: Listing, ops: seq<Op>, later: int)
    requires id in fs.handles && !DirHit(fs, fs.handles[id].path, t) && later < t + 250
    requires Spared(DoReaddir(fs, id, t, Some(l)), ops, fs.handles[id].path, t)
    ensures DirHit(After(DoReaddir(fs, id, t, Some(l)), ops), fs.handles[id].path, later)
  {
    ServesOn(DoReaddir(fs, id, t, Some(l)), ops, fs.handles[id].path, t);
  }
}
