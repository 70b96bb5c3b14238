/**
The cache under concurrency and outside edits.  The lock regions of Stat and Readdir, the upstream calls between them,
edits of the upstream by anyone, invalidations and the passing of time interleave freely.  Directories are listed
through open handles, which an edit may carry elsewhere.  Every look at the upstream is kept on record: when it was
made, for which key, and what the upstream then was.
*/
module CacheStaleness {
  import opened Wrappers
  import opened Paths
  import opened Upstream
  import opened Cache

  /** A call between two of its steps.  now is the clock it read first. */
  datatype Call =
    | StatBegun(key: Path, now: int)
    | StatMissed(key: Path, now: int)
    | StatGot(key: Path, now: int, answer: Answer)
    | DirBegun(key: Path, now: int, handle: nat)
    | DirMissed(key: Path, now: int, handle: nat)
    | DirGot(key: Path, now: int, listing: Listing)

  /** What a call returned, the clock it read first, and the clock when it returned. */
  datatype Returned =
    | StatReturned(key: Path, now: int, end: int, answer: Answer)
    | DirReturned(key: Path, now: int, end: int, listing: Listing)

  /** A look at one key, or at the children of one, and the whole upstream at that moment. */
  datatype Look = Look(time: int, key: Path, listed: bool, tree: Tree)

  /** An open directory: its opening path, where it is now, and whether it has been drained. */
  datatype Opened = Opened(path: Path, at: Option<Path>, drained: bool)

  datatype World = World(clock: int, tree: Tree, open: map<nat, Opened>, stats: map<Path, StatEntry>,
                         readdir: map<Path, DirEntry>, calls: map<nat, Call>, looks: seq<Look>, returned: seq<Returned>)

  datatype Event =
    | Tick(now: int)
    | Edit(tree: Tree, places: map<nat, Option<Path>>)
    | Drop(key: Path)
    | OpenDir(handle: nat, key: Path)
    | BeginStat(id: nat, key: Path)
    | BeginDir(id: nat, handle: nat)
    | Check(id: nat)
    | AskStat(id: nat)
    | AskDir(id: nat, listing: Option<Listing>)
    | Store(id: nat)

  function Init(now: int, tree: Tree): World {
    World(now, tree, map[], map[], map[], map[], [], [])
  }

  function Finish(w: World, id: nat, r: Returned): World {
    w.(calls := w.calls - {id}, returned := w.returned + [r])
  }

  /** The first lock region: answer from a live entry, or go and ask. */
  function Checked(w: World, id: nat): Option<World>
    requires id in w.calls
  {
    match w.calls[id]
    case StatBegun(k, now) =>
      if k in w.stats && now < w.stats[k].expires
      then Some(Finish(w, id, StatReturned(k, now, w.clock, w.stats[k].answer)))
      else Some(w.(calls := w.calls[id := StatMissed(k, now)]))
    case DirBegun(k, now, h) =>
      if k in w.readdir && now < w.readdir[k].expires
      then Some(Finish(w, id, DirReturned(k, now, w.clock, w.readdir[k].listing)))
      else Some(w.(calls := w.calls[id := DirMissed(k, now, h)]))
    case _ => None
  }

  /** The second lock region: store under the clock read at the beginning, and return. */
  function Stored(w: World, id: nat): Option<World>
    requires id in w.calls
  {
    match w.calls[id]
    case StatGot(k, now, a) =>
      Some(Finish(w.(stats := w.stats[k := StatEntry(a, now + TTL)]), id, StatReturned(k, now, w.clock, a)))
    case DirGot(k, now, l) =>
      Some(Finish(w.(readdir := w.readdir[k := DirEntry(l, now + TTL)], stats := Seed(w.stats, k, l.rows, now + TTL)),
                  id, DirReturned(k, now, w.clock, l)))
    case _ => None
  }

  /** What the upstream file can answer: the listing of the directory it holds, wherever that is. */
  ghost predicate Lets(t: Tree, h: Opened, up: Option<Listing>) {
    match h.at
    case None => up.None? || up.value.rows == []
    case Some(q) =>
      if !IsDir(t, q) then up.None?
      else if h.drained then up == Some(Listing([], false))
      else up.Some? && Lists(t, q, up.value.rows)
  }

  /** The upstream answers a listing. */
  ghost function Asked(w: World, id: nat, up: Option<Listing>): Option<World>
    requires id in w.calls && w.calls[id].DirMissed?
  {
    var c := w.calls[id];
    if c.handle !in w.open || !Lets(w.tree, w.open[c.handle], up) then None
    else
      var drained := w.(open := w.open[c.handle := w.open[c.handle].(drained := true)]);
      match up
      case None => Some(drained.(calls := w.calls - {id}))
      case Some(l) =>
        Some(drained.(calls := w.calls[id := DirGot(c.key, c.now, l)],
                      looks := w.looks + [Look(w.clock, c.key, true, w.tree)]))
  }

  ghost function Step(w: World, ev: Event): Option<World> {
    match ev
    case Tick(now) => if w.clock <= now then Some(w.(clock := now)) else None
    case Edit(t, places) =>
      Some(w.(tree := t, open := map h | h in w.open ::
                if h in places then w.open[h].(at := places[h]) else w.open[h]))
    case Drop(k) => Some(w.(stats := w.stats - {k, Parent(k)}, readdir := w.readdir - {Parent(k)}))
    case OpenDir(h, k) =>
      if h in w.open || !IsDir(w.tree, k) then None else Some(w.(open := w.open[h := Opened(k, Some(k), false)]))
    case BeginStat(id, k) => if id in w.calls then None else Some(w.(calls := w.calls[id := StatBegun(k, w.clock)]))
    case BeginDir(id, h) =>
      if id in w.calls || h !in w.open then None
      else Some(w.(calls := w.calls[id := DirBegun(w.open[h].path, w.clock, h)]))
    case Check(id) => if id in w.calls then Checked(w, id) else None
    case AskStat(id) =>
      if id in w.calls && w.calls[id].StatMissed? then
        var c := w.calls[id];
        Some(w.(calls := w.calls[id := StatGot(c.key, c.now, StatOf(w.tree, c.key))],
                looks := w.looks + [Look(w.clock, c.key, false, w.tree)]))
      else None
    case AskDir(id, up) => if id in w.calls && w.calls[id].DirMissed? then Asked(w, id, up) else None
    case Store(id) => if id in w.calls then Stored(w, id) else None
  }

  ghost function Exec(w: World, evs: seq<Event>): Option<World> {
    if evs == [] then Some(w)
    else
      var n := |evs| - 1;
      match Exec(w, evs[..n])
      case None => None
      case Some(v) => Step(v, evs[n])
  }

  // ------------------------------------------------------------------------------------------------------------
  // Which listings speak of the key
  // ------------------------------------------------------------------------------------------------------------

  /** The children at q are those at p. */
  ghost predicate SameChildren(t: Tree, q: Path, p: Path) {
    forall name :: SameChild(t, q, p, name)
  }

  predicate SameChild(t: Tree, q: Path, p: Path, name: string) {
    (q + [name] in t <==> p + [name] in t) && (q + [name] in t ==> t[q + [name]] == t[p + [name]])
  }

  /** What the handle lists is what stands at the key it is listed for. */
  ghost predicate Reflects(t: Tree, h: Opened, key: Path) {
    if h.at.None? || h.drained then Childless(t, key) else SameChildren(t, h.at.value, key)
  }

  lemma ListsName(t: Tree, q: Path, rows: seq<Info>, name: string) returns (i: nat)
    requires Lists(t, q, rows) && q + [name] in t
    ensures i < |rows| && rows[i].name == name && Found(rows[i]) == StatOf(t, q + [name])
  {
    assert Parent(q + [name]) == q && Last(q + [name]) == name && Names(rows, name);
    i :| 0 <= i < |rows| && rows[i].name == name;
  }

  lemma ListsElsewhere(t: Tree, q: Path, p: Path, rows: seq<Info>)
    requires Lists(t, q, rows)
    ensures Lists(t, p, rows) <==> SameChildren(t, q, p)
  {
    if SameChildren(t, q, p) {
      forall i | 0 <= i < |rows|
        ensures StatOf(t, p + [rows[i].name]) == Found(rows[i])
      {
        assert SameChild(t, q, p, rows[i].name) && StatOf(t, q + [rows[i].name]) == Found(rows[i]);
      }
      forall c | c in t && c != [] && Parent(c) == p
        ensures Names(rows, Last(c))
      {
        assert c == p + [Last(c)] && SameChild(t, q, p, Last(c));
        var i := ListsName(t, q, rows, Last(c));
      }
    }
    if Lists(t, p, rows) {
      forall name
        ensures SameChild(t, q, p, name)
      {
        if q + [name] in t { var i := ListsName(t, q, rows, name); }
        if p + [name] in t { var i := ListsName(t, p, rows, name); }
      }
    }
  }

  lemma NoRows(t: Tree, p: Path)
    ensures Lists(t, p, []) <==> Childless(t, p)
  {
    if Lists(t, p, []) {
      forall q | q in t && q != []
        ensures Parent(q) != p
      {
        assert !Names([], Last(q));
      }
    }
  }

  /** What is listed is a listing of the key if and only if the handle reflects it. */
  lemma AskExactly(t: Tree, h: Opened, key: Path, l: Listing)
    requires Lets(t, h, Some(l))
    ensures Lists(t, key, l.rows) <==> Reflects(t, h, key)
  {
    if h.at.None? || h.drained {
      NoRows(t, key);
    } else {
      ListsElsewhere(t, h.at.value, key, l.rows);
    }
  }

  /** Every listing of the run was asked through a handle that reflected its key. */
  ghost predicate Reflecting(w: World, ev: Event) {
    match ev
    case AskDir(id, Some(_)) =>
      id in w.calls && w.calls[id].DirMissed? && w.calls[id].handle in w.open ==>
        Reflects(w.tree, w.open[w.calls[id].handle], w.calls[id].key)
    case _ => true
  }

  ghost predicate ReflectingAt(w: World, evs: seq<Event>, i: nat)
    requires i < |evs|
  {
    Exec(w, evs[..i]).Some? ==> Reflecting(Exec(w, evs[..i]).value, evs[i])
  }

  ghost predicate ReflectingRun(w: World, evs: seq<Event>) {
    forall i | 0 <= i < |evs| :: ReflectingAt(w, evs, i)
  }

  // ------------------------------------------------------------------------------------------------------------
  // What the looks show
  // ------------------------------------------------------------------------------------------------------------

  /** A look at the key itself, or at the children of its parent. */
  predicate At(l: Look, k: Path) {
    if l.listed then k != [] && l.key == Parent(k) else l.key == k
  }

  /** Look i, made for this key between the two instants, shows this answer. */
  predicate StatShown(looks: seq<Look>, i: nat, k: Path, a: Answer, since: int, until: int) {
    i < |looks| && since <= looks[i].time <= until && At(looks[i], k) && StatOf(looks[i].tree, k) == a
  }

  ghost predicate DirShown(looks: seq<Look>, i: nat, k: Path, rows: seq<Info>, since: int, until: int) {
    && i < |looks| && since <= looks[i].time <= until
    && looks[i].listed && looks[i].key == k && Lists(looks[i].tree, k, rows)
  }

  ghost predicate StatSeen(looks: seq<Look>, k: Path, a: Answer, since: int, until: int) {
    exists i: nat :: StatShown(looks, i, k, a, since, until)
  }

  ghost predicate DirSeen(looks: seq<Look>, k: Path, rows: seq<Info>, since: int, until: int) {
    exists i: nat :: DirShown(looks, i, k, rows, since, until)
  }

  /** More looks, or wider bounds, take nothing away. */
  lemma StatSeenWeaken(looks: seq<Look>, all: seq<Look>, k: Path, a: Answer, since: int, until: int,
                       sooner: int, later: int)
    requires StatSeen(looks, k, a, since, until) && looks <= all && sooner <= since && until <= later
    ensures StatSeen(all, k, a, sooner, later)
  {
    var i: nat :| StatShown(looks, i, k, a, since, until);
    assert StatShown(all, i, k, a, sooner, later);
  }

  lemma DirSeenWeaken(looks: seq<Look>, all: seq<Look>, k: Path, rows: seq<Info>, since: int, until: int,
                      sooner: int, later: int)
    requires DirSeen(looks, k, rows, since, until) && looks <= all && sooner <= since && until <= later
    ensures DirSeen(all, k, rows, sooner, later)
  {
    var i: nat :| DirShown(looks, i, k, rows, since, until);
    assert DirShown(all, i, k, rows, sooner, later);
  }

  ghost predicate StatEntryOk(looks: seq<Look>, clock: int, k: Path, e: StatEntry) {
    StatSeen(looks, k, e.answer, e.expires - TTL, clock)
  }

  ghost predicate DirEntryOk(looks: seq<Look>, clock: int, k: Path, e: DirEntry) {
    DirSeen(looks, k, e.listing.rows, e.expires - TTL, clock)
  }

  ghost predicate CallOk(looks: seq<Look>, clock: int, c: Call) {
    match c
    case StatGot(k, now, a) => StatSeen(looks, k, a, now, clock)
    case DirGot(k, now, l) => DirSeen(looks, k, l.rows, now, clock)
    case _ => true
  }

  /**
  The answer was shown by a look made for its key, at the latest when the call returned, and no longer before the call
  read its clock than an entry lives.
  */
  ghost predicate ReturnOk(looks: seq<Look>, r: Returned) {
    match r
    case StatReturned(k, now, end, a) => StatSeen(looks, k, a, now - 249, end)
    case DirReturned(k, now, end, l) => DirSeen(looks, k, l.rows, now - 249, end)
  }

  ghost predicate StatsOk(looks: seq<Look>, clock: int, stats: map<Path, StatEntry>) {
    forall k | k in stats :: StatEntryOk(looks, clock, k, stats[k])
  }

  ghost predicate DirsOk(looks: seq<Look>, clock: int, readdir: map<Path, DirEntry>) {
    forall k | k in readdir :: DirEntryOk(looks, clock, k, readdir[k])
  }

  ghost predicate CallsOk(looks: seq<Look>, clock: int, calls: map<nat, Call>) {
    forall id | id in calls :: CallOk(looks, clock, calls[id])
  }

  ghost predicate ReturnsOk(looks: seq<Look>, returned: seq<Returned>) {
    forall i | 0 <= i < |returned| :: ReturnOk(looks, returned[i])
  }

  ghost predicate Recent(w: World) {
    && StatsOk(w.looks, w.clock, w.stats) && DirsOk(w.looks, w.clock, w.readdir)
    && CallsOk(w.looks, w.clock, w.calls) && ReturnsOk(w.looks, w.returned)
  }

  lemma StatsLast(looks: seq<Look>, clock: int, all: seq<Look>, later: int, stats: map<Path, StatEntry>)
    requires StatsOk(looks, clock, stats) && looks <= all && clock <= later
    ensures StatsOk(all, later, stats)
  {
    forall k | k in stats
      ensures StatEntryOk(all, later, k, stats[k])
    {
      var e := stats[k];
      assert StatEntryOk(looks, clock, k, e);
      StatSeenWeaken(looks, all, k, e.answer, e.expires - TTL, clock, e.expires - TTL, later);
    }
  }

  lemma DirsLast(looks: seq<Look>, clock: int, all: seq<Look>, later: int, readdir: map<Path, DirEntry>)
    requires DirsOk(looks, clock, readdir) && looks <= all && clock <= later
    ensures DirsOk(all, later, readdir)
  {
    forall k | k in readdir
      ensures DirEntryOk(all, later, k, readdir[k])
    {
      var e := readdir[k];
      assert DirEntryOk(looks, clock, k, e);
      DirSeenWeaken(looks, all, k, e.listing.rows, e.expires - TTL, clock, e.expires - TTL, later);
    }
  }

  lemma CallLasts(looks: seq<Look>, clock: int, all: seq<Look>, later: int, c: Call)
    requires CallOk(looks, clock, c) && looks <= all && clock <= later
    ensures CallOk(all, later, c)
  {
    match c
    case StatGot(k, now, a) => StatSeenWeaken(looks, all, k, a, now, clock, now, later);
    case DirGot(k, now, l) => DirSeenWeaken(looks, all, k, l.rows, now, clock, now, later);
    case _ =>
  }

  lemma CallsLast(looks: seq<Look>, clock: int, all: seq<Look>, later: int, calls: map<nat, Call>)
    requires CallsOk(looks, clock, calls) && looks <= all && clock <= later
    ensures CallsOk(all, later, calls)
  {
    forall id | id in calls
      ensures CallOk(all, later, calls[id])
    {
      CallLasts(looks, clock, all, later, calls[id]);
    }
  }

  lemma ReturnsLast(looks: seq<Look>, all: seq<Look>, returned: seq<Returned>)
    requires ReturnsOk(looks, returned) && looks <= all
    ensures ReturnsOk(all, returned)
  {
    forall i | 0 <= i < |returned|
      ensures ReturnOk(all, returned[i])
    {
      assert ReturnOk(looks, returned[i]);
      match returned[i]
      case StatReturned(k, now, end, a) => StatSeenWeaken(looks, all, k, a, now - TTL + 1, end, now - TTL + 1, end);
      case DirReturned(k, now, end, l) => DirSeenWeaken(looks, all, k, l.rows, now - TTL + 1, end, now - TTL + 1, end);
    }
  }

  /** Time and further looks keep what is recent. */
  lemma RecentLasts(w: World, all: seq<Look>, later: int)
    requires Recent(w) && w.looks <= all && w.clock <= later
    ensures Recent(w.(looks := all, clock := later))
  {
    StatsLast(w.looks, w.clock, all, later, w.stats);
    DirsLast(w.looks, w.clock, all, later, w.readdir);
    CallsLast(w.looks, w.clock, all, later, w.calls);
    ReturnsLast(w.looks, all, w.returned);
  }

  lemma FinishKeeps(w: World, id: nat, r: Returned)
    requires Recent(w) && ReturnOk(w.looks, r)
    ensures Recent(Finish(w, id, r))
  {
  }

  lemma CheckKeeps(w: World, id: nat)
    requires Recent(w) && id in w.calls && Checked(w, id).Some?
    ensures Recent(Checked(w, id).value)
  {
    match w.calls[id]
    case StatBegun(k, now) =>
      if k in w.stats && now < w.stats[k].expires {
        var e := w.stats[k];
        assert StatEntryOk(w.looks, w.clock, k, e);
        StatSeenWeaken(w.looks, w.looks, k, e.answer, e.expires - TTL, w.clock, now - TTL + 1, w.clock);
        FinishKeeps(w, id, StatReturned(k, now, w.clock, e.answer));
      }
    case DirBegun(k, now, _) =>
      if k in w.readdir && now < w.readdir[k].expires {
        var e := w.readdir[k];
        assert DirEntryOk(w.looks, w.clock, k, e);
        DirSeenWeaken(w.looks, w.looks, k, e.listing.rows, e.expires - TTL, w.clock, now - TTL + 1, w.clock);
        FinishKeeps(w, id, DirReturned(k, now, w.clock, e.listing));
      }
  }

  lemma ChildIsAt(l: Look, k: Path, name: string)
    requires l.listed && l.key == k
    ensures At(l, k + [name])
  {
    assert Parent(k + [name]) == k;
  }

  /** Every entry that Readdir seeds was shown by the look that gave the listing. */
  lemma {:induction false} SeedKeeps(looks: seq<Look>, clock: int, stats: map<Path, StatEntry>, k: Path,
                                     rows: seq<Info>, part: seq<Info>, now: int)
    requires part <= rows && DirSeen(looks, k, rows, now, clock)
    requires StatsOk(looks, clock, stats)
    ensures StatsOk(looks, clock, Seed(stats, k, part, now + TTL))
  {
    if part != [] {
      var n := |part| - 1;
      SeedKeeps(looks, clock, stats, k, rows, part[..n], now);
      var i: nat :| DirShown(looks, i, k, rows, now, clock);
      var child := k + [part[n].name];
      assert part[n] == rows[n] && StatOf(looks[i].tree, k + [rows[n].name]) == Found(rows[n]);
      ChildIsAt(looks[i], k, part[n].name);
      assert StatShown(looks, i, child, Found(part[n]), now, clock);
      assert StatEntryOk(looks, clock, child, StatEntry(Found(part[n]), now + TTL));
    }
  }

  lemma StoreStat(w: World, k: Path, now: int, a: Answer)
    requires Recent(w) && StatSeen(w.looks, k, a, now, w.clock)
    ensures Recent(w.(stats := w.stats[k := StatEntry(a, now + TTL)]))
  {
    assert StatEntryOk(w.looks, w.clock, k, StatEntry(a, now + TTL));
  }

  lemma StoreDir(w: World, k: Path, now: int, l: Listing)
    requires Recent(w) && DirSeen(w.looks, k, l.rows, now, w.clock)
    ensures Recent(w.(readdir := w.readdir[k := DirEntry(l, now + TTL)], stats := Seed(w.stats, k, l.rows, now + TTL)))
  {
    SeedKeeps(w.looks, w.clock, w.stats, k, l.rows, l.rows, now);
    var readdir := w.readdir[k := DirEntry(l, now + TTL)];
    forall q | q in readdir
      ensures DirEntryOk(w.looks, w.clock, q, readdir[q])
    {
      assert q != k ==> DirEntryOk(w.looks, w.clock, q, w.readdir[q]);
    }
  }

  lemma StoreStatKeeps(w: World, id: nat)
    requires Recent(w) && id in w.calls && w.calls[id].StatGot?
    ensures Recent(Stored(w, id).value)
  {
    var StatGot(k, now, a) := w.calls[id];
    assert CallOk(w.looks, w.clock, w.calls[id]);
    StoreStat(w, k, now, a);
    StatSeenWeaken(w.looks, w.looks, k, a, now, w.clock, now - TTL + 1, w.clock);
    FinishKeeps(w.(stats := w.stats[k := StatEntry(a, now + TTL)]), id, StatReturned(k, now, w.clock, a));
  }

  lemma StoreDirKeeps(w: World, id: nat)
    requires Recent(w) && id in w.calls && w.calls[id].DirGot?
    ensures Recent(Stored(w, id).value)
  {
    var DirGot(k, now, l) := w.calls[id];
    assert CallOk(w.looks, w.clock, w.calls[id]);
    StoreDir(w, k, now, l);
    DirSeenWeaken(w.looks, w.looks, k, l.rows, now, w.clock, now - TTL + 1, w.clock);
    FinishKeeps(w.(readdir := w.readdir[k := DirEntry(l, now + TTL)], stats := Seed(w.stats, k, l.rows, now + TTL)),
                id, DirReturned(k, now, w.clock, l));
  }

  lemma StoreKeeps(w: World, id: nat)
    requires Recent(w) && id in w.calls && Stored(w, id).Some?
    ensures Recent(Stored(w, id).value)
  {
    if w.calls[id].StatGot? { StoreStatKeeps(w, id); } else { StoreDirKeeps(w, id); }
  }

  /** An answer just taken from the upstream is on record. */
  lemma AskKeeps(w: World, id: nat, c: Call, look: Look)
    requires Recent(w) && c.now <= w.clock && look.time == w.clock && look.tree == w.tree && look.key == c.key
    requires match c
      case StatGot(k, _, a) => !look.listed && a == StatOf(w.tree, k)
      case DirGot(k, _, l) => look.listed && Lists(w.tree, k, l.rows)
      case _ => false
    ensures Recent(w.(calls := w.calls[id := c], looks := w.looks + [look]))
  {
    var all := w.looks + [look];
    RecentLasts(w, all, w.clock);
    match c
    case StatGot(k, now, a) => assert StatShown(all, |w.looks|, k, a, now, w.clock);
    case DirGot(k, now, l) => assert DirShown(all, |w.looks|, k, l.rows, now, w.clock);
  }

  /** A call in progress read a clock that has since only advanced. */
  ghost predicate Timely(w: World) {
    forall id | id in w.calls :: w.calls[id].now <= w.clock
  }

  lemma AskDirKeeps(w: World, id: nat, up: Option<Listing>)
    requires Recent(w) && Timely(w) && id in w.calls && w.calls[id].DirMissed? && Asked(w, id, up).Some?
    requires Reflecting(w, AskDir(id, up))
    ensures Recent(Asked(w, id, up).value)
  {
    var c := w.calls[id];
    if up.Some? {
      AskExactly(w.tree, w.open[c.handle], c.key, up.value);
      AskKeeps(w, id, DirGot(c.key, c.now, up.value), Look(w.clock, c.key, true, w.tree));
    }
  }

  lemma RecentStep(w: World, ev: Event)
    requires Recent(w) && Timely(w) && Step(w, ev).Some? && Reflecting(w, ev)
    ensures Recent(Step(w, ev).value)
  {
    match ev
    case Tick(now) => RecentLasts(w, w.looks, now);
    case Check(id) => CheckKeeps(w, id);
    case Store(id) => StoreKeeps(w, id);
    case AskStat(id) =>
      var c := w.calls[id];
      AskKeeps(w, id, StatGot(c.key, c.now, StatOf(w.tree, c.key)), Look(w.clock, c.key, false, w.tree));
    case AskDir(id, up) => AskDirKeeps(w, id, up);
    case _ =>
  }

  lemma TimelyRegion(w: World, id: nat)
    requires Timely(w) && id in w.calls
    ensures Checked(w, id).Some? ==> Timely(Checked(w, id).value)
    ensures Stored(w, id).Some? ==> Timely(Stored(w, id).value)
  {
  }

  lemma TimelyAsk(w: World, id: nat, up: Option<Listing>)
    requires Timely(w) && id in w.calls && w.calls[id].DirMissed? && Asked(w, id, up).Some?
    ensures Timely(Asked(w, id, up).value)
  {
  }

  lemma TimelyStep(w: World, ev: Event)
    requires Timely(w) && Step(w, ev).Some?
    ensures Timely(Step(w, ev).value)
  {
    match ev
    case Check(id) => TimelyRegion(w, id);
    case Store(id) => TimelyRegion(w, id);
    case AskDir(id, up) => TimelyAsk(w, id, up);
    case _ =>
  }

  lemma ReflectingPrefix(w: World, evs: seq<Event>)
    requires evs != [] && ReflectingRun(w, evs)
    ensures ReflectingRun(w, evs[..|evs| - 1])
  {
    var n := |evs| - 1;
    forall i | 0 <= i < n
      ensures ReflectingAt(w, evs[..n], i)
    {
      assert evs[..n][..i] == evs[..i];
      assert ReflectingAt(w, evs, i);
    }
  }

  lemma {:induction false} RecentRun(w: World, evs: seq<Event>)
    requires Recent(w) && Timely(w) && Exec(w, evs).Some? && ReflectingRun(w, evs)
    ensures Recent(Exec(w, evs).value) && Timely(Exec(w, evs).value)
  {
    if evs != [] {
      var n := |evs| - 1;
      ReflectingPrefix(w, evs);
      RecentRun(w, evs[..n]);
      assert ReflectingAt(w, evs, n);
      RecentStep(Exec(w, evs[..n]).value, evs[n]);
      TimelyStep(Exec(w, evs[..n]).value, evs[n]);
    }
  }

  /**
  Bounded staleness: whatever edits, calls and invalidations interleave, every Stat and every full listing ever returned
  was shown by a look made for its key before the call returned, and less than 250 ms before the call read its clock or
  later.  It is required of listings that reach the upstream that their handle reflects the key, as it does while the
  directory is where it was opened and has not been drained.
  */
  lemma StalenessIsBounded(now: int, tree: Tree, evs: seq<Event>, i: nat)
    requires Exec(Init(now, tree), evs).Some? && ReflectingRun(Init(now, tree), evs)
    requires i < |Exec(Init(now, tree), evs).value.returned|
    ensures ReturnOk(Exec(Init(now, tree), evs).value.looks, Exec(Init(now, tree), evs).value.returned[i])
  {
    RecentFromStart(now, tree, evs);
  }

  lemma RecentFromStart(now: int, tree: Tree, evs: seq<Event>)
    requires Exec(Init(now, tree), evs).Some? && ReflectingRun(Init(now, tree), evs)
    ensures Recent(Exec(Init(now, tree), evs).value)
  {
    RecentRun(Init(now, tree), evs);
  }

  /** A listing asked through a handle that does not reflect its key was not shown for it by the look it came from. */
  lemma UnreflectedIsUnseen(w: World, id: nat, l: Listing)
    requires id in w.calls && w.calls[id].DirMissed? && Asked(w, id, Some(l)).Some?
    requires !Reflecting(w, AskDir(id, Some(l)))
    ensures var v, c := Asked(w, id, Some(l)).value, w.calls[id];
      v.calls[id] == DirGot(c.key, c.now, l)
      && forall since, until :: !DirShown(v.looks, |w.looks|, c.key, l.rows, since, until)
  {
    AskExactly(w.tree, w.open[w.calls[id].handle], w.calls[id].key, l);
  }

  lemma ExecSnoc(w: World, evs: seq<Event>, ev: Event)
    requires Exec(w, evs).Some?
    ensures Exec(w, evs + [ev]) == Step(Exec(w, evs).value, ev)
  {
    assert (evs + [ev])[..|evs|] == evs;
  }

  lemma ExecTwo(w: World, evs: seq<Event>, a: Event, b: Event)
    requires Exec(w, evs).Some? && Step(Exec(w, evs).value, a).Some?
    ensures Exec(w, evs + [a, b]) == Step(Step(Exec(w, evs).value, a).value, b)
  {
    var one := evs + [a];
    assert evs + [a, b] == one + [b];
    ExecSnoc(w, evs, a);
    ExecSnoc(w, one, b);
  }

  function TreeBefore(d: string): Tree {
    map[[] := Dir(0), [d] := Dir(0)]
  }

  function TreeAfter(e: string, y: string): Tree {
    map[[] := Dir(0), [e] := Dir(0), [e, y] := Dir(0)]
  }

  lemma NewListing(d: string, e: string, y: string)
    requires d != e
    ensures var t, rows := TreeAfter(e, y), [Info(y, Dir(0))];
      IsDir(t, [e]) && Lists(t, [e], rows) && !Lists(t, [d], rows)
  {
    var t := TreeAfter(e, y);
    assert [e] + [y] == [e, y] && [d] + [y] == [d, y] && Parent([e, y]) == [e] && Parent([e]) == [];
    assert [d, y][0] != [e, y][0] && |[d, y]| == 2;
    assert [d, y] !in t && StatOf(t, [e, y]) == Found(Info(y, Dir(0)));
    var rows := [Info(y, Dir(0))];
    assert rows[0].name == y;
  }

  /** Open a directory; let somebody rename it, with something in it. */
  lemma Moved(now: int, d: string, e: string, y: string) returns (evs: seq<Event>, w: World)
    ensures Exec(Init(now, TreeBefore(d)), evs) == Some(w)
    ensures w == Init(now, TreeAfter(e, y)).(open := map[0 := Opened([d], Some([e]), false)])
  {
    var w0 := Init(now, TreeBefore(d));
    var a, b := OpenDir(0, [d]), Edit(TreeAfter(e, y), map[0 := Some([e])]);
    ExecTwo(w0, [], a, b);
    evs := [] + [a, b];
    w := Exec(w0, evs).value;
    assert w.open == map[0 := Opened([d], Some([e]), false)];
  }

  lemma BeginAndMiss(v: World, d: string, h: Opened)
    requires v.calls == map[] && v.open == map[0 := h] && h.path == [d] && v.readdir == map[]
    ensures var b := Step(v, BeginDir(1, 0));
      b.Some? && Step(b.value, Check(1)) == Some(v.(calls := map[1 := DirMissed([d], v.clock, 0)]))
  {
    var b := Step(v, BeginDir(1, 0)).value;
    assert b.calls == map[1 := DirBegun([d], v.clock, 0)];
    assert b.calls[1 := DirMissed([d], v.clock, 0)] == map[1 := DirMissed([d], v.clock, 0)];
  }

  lemma AskAndReturn(u: World, d: string, h: Opened, l: Listing)
    requires u.calls == map[1 := DirMissed([d], u.clock, 0)] && u.open == map[0 := h]
    requires u.looks == [] && u.returned == []
    requires Lets(u.tree, h, Some(l))
    ensures var g := Step(u, AskDir(1, Some(l)));
      && g.Some? && Step(g.value, Store(1)).Some?
      && var w := Step(g.value, Store(1)).value;
      w.returned == [DirReturned([d], u.clock, u.clock, l)] && w.looks == [Look(u.clock, [d], true, u.tree)]
  {
    var g := Step(u, AskDir(1, Some(l))).value;
    assert g.calls[1] == DirGot([d], u.clock, l) && g.looks == [Look(u.clock, [d], true, u.tree)];
  }

  lemma OneLook(look: Look, k: Path, rows: seq<Info>)
    requires !Lists(look.tree, k, rows)
    ensures forall since, until :: !DirSeen([look], k, rows, since, until)
  {
  }

  /**
  And then nothing need ever have shown it: list the directory through the old handle, and a listing is returned that
  the upstream never gave for that path.
  */
  lemma MovedHandleIsUnseen(now: int, d: string, e: string, y: string) returns (evs: seq<Event>, w: World)
    requires d != e
    ensures Exec(Init(now, TreeBefore(d)), evs) == Some(w)
    ensures var rows := [Info(y, Dir(0))];
      && w.returned == [DirReturned([d], now, now, Listing(rows, false))]
      && forall since, until :: !DirSeen(w.looks, [d], rows, since, until)
  {
    var w0 := Init(now, TreeBefore(d));
    var first, v := Moved(now, d, e, y);
    var h, l := Opened([d], Some([e]), false), Listing([Info(y, Dir(0))], false);
    NewListing(d, e, y);
    BeginAndMiss(v, d, h);
    ExecTwo(w0, first, BeginDir(1, 0), Check(1));
    var second := first + [BeginDir(1, 0), Check(1)];
    var u := Exec(w0, second).value;
    AskAndReturn(u, d, h, l);
    ExecTwo(w0, second, AskDir(1, Some(l)), Store(1));
    evs := second + [AskDir(1, Some(l)), Store(1)];
    w := Exec(w0, evs).value;
    OneLook(Look(now, [d], true, TreeAfter(e, y)), [d], l.rows);
  }

  // ------------------------------------------------------------------------------------------------------------
  // What is not looked at again
  // ------------------------------------------------------------------------------------------------------------

  lemma CallGone(calls: map<nat, Call>, id: nat, c: Call)
    requires id !in calls
    ensures calls[id := c] - {id} == calls
  {
  }

  /** A Stat with no live entry looks once, at its own time, and leaves an entry. */
  lemma StatLooks(w: World, k: Path)
    requires w.calls == map[] && !(k in w.stats && w.clock < w.stats[k].expires)
    ensures var a, b := Step(w, BeginStat(1, k)), w.(calls := map[1 := StatMissed(k, w.clock)]);
      && a.Some? && Step(a.value, Check(1)) == Some(b)
      && var got := Step(b, AskStat(1));
      && got.Some? && Step(got.value, Store(1)) == Some(w.(
           stats := w.stats[k := StatEntry(StatOf(w.tree, k), w.clock + 250)],
           looks := w.looks + [Look(w.clock, k, false, w.tree)],
           returned := w.returned + [StatReturned(k, w.clock, w.clock, StatOf(w.tree, k))]))
  {
    var a := Step(w, BeginStat(1, k)).value;
    assert a.calls[1 := StatMissed(k, w.clock)] == map[1 := StatMissed(k, w.clock)];
    var b := w.(calls := map[1 := StatMissed(k, w.clock)]);
    var g := StatGot(k, w.clock, StatOf(w.tree, k));
    assert b.calls[1 := g] == map[][1 := g];
    CallGone(map[], 1, g);
  }

  /** One with a live entry does not look. */
  lemma StatServed(w: World, k: Path)
    requires w.calls == map[] && k in w.stats
    ensures var a := Step(w, BeginStat(2, k));
      && a.Some?
      && Step(a.value, Check(2)) == Some(
           if w.clock < w.stats[k].expires
           then w.(returned := w.returned + [StatReturned(k, w.clock, w.clock, w.stats[k].answer)])
           else w.(calls := map[2 := StatMissed(k, w.clock)]))
  {
    var a := Step(w, BeginStat(2, k)).value;
    CallGone(map[], 2, StatBegun(k, w.clock));
    assert a.calls[2 := StatMissed(k, w.clock)] == map[2 := StatMissed(k, w.clock)];
  }

  /** Two Stats of one name: the second is served from the first look exactly if it begins within 250 ms of it. */
  lemma SecondStat(now: int, tree: Tree, k: Path, t: int)
    requires now <= t
    ensures var evs := [BeginStat(1, k), Check(1)] + [AskStat(1), Store(1)] + [Tick(t)] + [BeginStat(2, k), Check(2)];
      var w := Exec(Init(now, tree), evs);
      && w.Some? && w.value.looks == [Look(now, k, false, tree)]
      && if t < now + 250
         then w.value.returned == [StatReturned(k, now, now, StatOf(tree, k)), StatReturned(k, t, t, StatOf(tree, k))]
         else w.value.returned == [StatReturned(k, now, now, StatOf(tree, k))]
              && w.value.calls == map[2 := StatMissed(k, t)]
  {
    var w0 := Init(now, tree);
    var first := [BeginStat(1, k), Check(1)];
    StatLooks(w0, k);
    ExecTwo(w0, [], BeginStat(1, k), Check(1));
    assert [] + first == first;
    ExecTwo(w0, first, AskStat(1), Store(1));
    var second := first + [AskStat(1), Store(1)];
    ExecSnoc(w0, second, Tick(t));
    var third := second + [Tick(t)];
    StatServed(Exec(w0, third).value, k);
    ExecTwo(w0, third, BeginStat(2, k), Check(2));
  }
}
