/** The trust-on-first-use keyring: pins in memory, a sorted list on disk, a save that replaces the file by rename. */
module Keyring {
  import opened Wrappers

  const PUBLIC_KEY_SIZE := 32

  /** Raw keys stand for their base64 forms, which differ when the keys do. */
  type Pub = seq<nat>

  datatype Peer = Peer(alias: string, pub: Pub, firstSeen: int, lastSeen: int)

  type Pins = map<string, Peer>

  /** A file holds a list that parses, or the remains of an interrupted write. */
  datatype Text = Whole(list: seq<Peer>) | Torn

  datatype Disk = Disk(main: Option<Text>, tmp: Option<Text>)

  // The order of the list.

  /** Go's < on strings. */
  predicate Less(a: string, b: string) {
    b != "" && (a == "" || a[0] < b[0] || (a[0] == b[0] && Less(a[1..], b[1..])))
  }

  lemma {:induction false} LessIsIrreflexive(a: string)
    ensures !Less(a, a)
  {
    if a != "" { LessIsIrreflexive(a[1..]); }
  }

  lemma {:induction false} LessIsTotal(a: string, b: string)
    ensures a == b || Less(a, b) || Less(b, a)
    ensures !(Less(a, b) && Less(b, a)) && !Less(a, a)
  {
    if a != "" {
      LessIsIrreflexive(a);
    }
    if a != "" && b != "" {
      LessIsTotal(a[1..], b[1..]);
      assert a == [a[0]] + a[1..] && b == [b[0]] + b[1..];
    }
  }

  lemma {:induction false} LessIsTransitive(a: string, b: string, c: string)
    requires Less(a, b) && Less(b, c)
    ensures Less(a, c)
  {
    if a != "" && a[0] == b[0] == c[0] { LessIsTransitive(a[1..], b[1..], c[1..]); }
  }

  ghost predicate Ascending(list: seq<Peer>) {
    forall i, j | 0 <= i < j < |list| :: Less(list[i].alias, list[j].alias)
  }

  ghost predicate Enumerates(list: seq<Peer>, m: Pins) {
    && (forall e | e in list :: e.alias in m && m[e.alias] == e)
    && (forall a | a in m :: m[a] in list)
  }

  ghost predicate Keyed(m: Pins) {
    forall a | a in m :: m[a].alias == a
  }

  function Insert(e: Peer, list: seq<Peer>): seq<Peer> {
    if list == [] || Less(e.alias, list[0].alias) then [e] + list else [list[0]] + Insert(e, list[1..])
  }

  /** sort.Slice by alias. */
  function Sort(list: seq<Peer>): seq<Peer> {
    if list == [] then [] else Insert(list[0], Sort(list[1..]))
  }

  lemma {:induction false} InsertKeeps(e: Peer, list: seq<Peer>)
    requires Ascending(list) && forall x | x in list :: x.alias != e.alias
    ensures Ascending(Insert(e, list))
    ensures forall x :: x in Insert(e, list) <==> x == e || x in list
  {
    if list != [] {
      LessIsTotal(e.alias, list[0].alias);
      if Less(e.alias, list[0].alias) {
        forall i | 0 < i < |list|
          ensures Less(e.alias, list[i].alias)
        {
          LessIsTransitive(e.alias, list[0].alias, list[i].alias);
        }
      } else {
        InsertKeeps(e, list[1..]);
        var rest := Insert(e, list[1..]);
        forall i | 0 <= i < |rest|
          ensures Less(list[0].alias, rest[i].alias)
        {
          assert rest[i] in rest;
        }
      }
    }
  }

  ghost predicate DistinctAliases(list: seq<Peer>) {
    forall i, j | 0 <= i < j < |list| :: list[i].alias != list[j].alias
  }

  lemma {:induction false} SortSorts(list: seq<Peer>)
    requires DistinctAliases(list)
    ensures Ascending(Sort(list)) && forall x :: x in Sort(list) <==> x in list
  {
    if list != [] {
      SortSorts(list[1..]);
      InsertKeeps(list[0], Sort(list[1..]));
    }
  }

  /** There is one sorted list for a map, whatever order the map was walked in. */
  lemma {:induction false} OneSortedList(l: seq<Peer>, r: seq<Peer>)
    requires Ascending(l) && Ascending(r) && forall x :: x in l <==> x in r
    ensures l == r
  {
    BothOrNeither(l, r);
    if l != [] {
      HeadsAgree(l, r);
      forall x
        ensures x in l[1..] <==> x in r[1..]
      {
        TailMembers(l, x);
        TailMembers(r, x);
      }
      OneSortedList(l[1..], r[1..]);
      assert l == [l[0]] + l[1..] && r == [r[0]] + r[1..];
    }
  }

  lemma BothOrNeither(l: seq<Peer>, r: seq<Peer>)
    requires forall x :: x in l <==> x in r
    ensures l == [] <==> r == []
  {
    if l != [] { assert l[0] in r; }
    if r != [] { assert r[0] in l; }
  }

  lemma TailMembers(l: seq<Peer>, x: Peer)
    requires Ascending(l) && l != []
    ensures x in l[1..] <==> x in l && x != l[0]
  {
    LessIsTotal(l[0].alias, l[0].alias);
  }

  lemma HeadsAgree(l: seq<Peer>, r: seq<Peer>)
    requires Ascending(l) && Ascending(r) && l != [] && r != [] && forall x :: x in l <==> x in r
    ensures l[0] == r[0]
  {
    assert l[0] in r && r[0] in l;
    LessIsTotal(l[0].alias, r[0].alias);
  }

  /** Reading the list back: a later entry replaces an earlier one of the same alias. */
  function Loaded(list: seq<Peer>): Pins {
    if list == [] then map[]
    else Loaded(list[..|list| - 1])[list[|list| - 1].alias := list[|list| - 1]]
  }

  lemma {:induction false} LoadedEnumerates(list: seq<Peer>)
    requires DistinctAliases(list)
    ensures Enumerates(list, Loaded(list)) && Keyed(Loaded(list))
  {
    if list != [] {
      var n := |list| - 1;
      LoadedEnumerates(list[..n]);
      assert list == list[..n] + [list[n]];
      assert forall e | e in list[..n] :: e.alias != list[n].alias;
      EnumeratesOneMore(list[..n], Loaded(list[..n]), list[n]);
    }
  }

  lemma EnumeratesOneMore(list: seq<Peer>, m: Pins, e: Peer)
    requires Enumerates(list, m) && Keyed(m) && forall x | x in list :: x.alias != e.alias
    ensures Enumerates(list + [e], m[e.alias := e]) && Keyed(m[e.alias := e])
  {
  }

  lemma AscendingIsDistinct(list: seq<Peer>)
    requires Ascending(list)
    ensures DistinctAliases(list)
  {
    forall i, j | 0 <= i < j < |list|
      ensures list[i].alias != list[j].alias
    {
      LessIsTotal(list[i].alias, list[i].alias);
    }
  }

  /** What was saved reloads to the same pins. */
  lemma ReloadsToTheSame(list: seq<Peer>, m: Pins)
    requires Ascending(list) && Enumerates(list, m) && Keyed(m)
    ensures Loaded(list) == m
  {
    AscendingIsDistinct(list);
    LoadedEnumerates(list);
    var l := Loaded(list);
    assert forall a | a in m :: m[a] in list && m[a].alias == a;
    assert forall a | a in l :: l[a] in list && l[a].alias == a;
  }

  lemma {:induction false} HasSortedList(m: Pins)
    requires Keyed(m)
    ensures exists list :: Ascending(list) && Enumerates(list, m)
    decreases |m|
  {
    if m == map[] {
      assert Ascending([]) && Enumerates([], m);
    } else {
      var a :| a in m;
      var rest := m - {a};
      assert m.Keys == rest.Keys + {a};
      HasSortedList(rest);
      var list :| Ascending(list) && Enumerates(list, rest);
      InsertEnumerates(list, m, a);
    }
  }

  lemma InsertEnumerates(list: seq<Peer>, m: Pins, a: string)
    requires Keyed(m) && a in m && Ascending(list) && Enumerates(list, m - {a})
    ensures Ascending(Insert(m[a], list)) && Enumerates(Insert(m[a], list), m)
  {
    assert forall x: Peer | x in list :: x.alias in m - {a};
    InsertKeeps(m[a], list);
    forall b | b in m
      ensures m[b] in Insert(m[a], list)
    {
      assert b != a ==> (m - {a})[b] in list;
    }
  }

  /** The list that saving m writes. */
  ghost function Listing(m: Pins): (list: seq<Peer>)
    requires Keyed(m)
    ensures Ascending(list) && Enumerates(list, m)
  {
    HasSortedList(m);
    var list :| Ascending(list) && Enumerates(list, m);
    list
  }

  // One process: events, and how the save of each may end.

  datatype Event = Check(alias: string, pub: Pub, now: int) | Forget(alias: string)

  /** A failed or interrupted write leaves anything in the temporary file. */
  datatype Ending = Saves | WriteFails(left: Option<Text>) | RenameFails | Dies(stage: Stage, left: Option<Text>)

  datatype Stage = Early | BeforeRename | AfterRename

  datatype Op = Do(event: Event, ending: Ending) | Reopen

  predicate Trusted(m: Pins, ev: Event)
    requires ev.Check?
  {
    |ev.pub| == PUBLIC_KEY_SIZE && (ev.alias in m ==> m[ev.alias].pub == ev.pub)
  }

  /** The events that change the pins, and so are saved. */
  predicate Writes(m: Pins, ev: Event) {
    match ev
    case Check(_, _, _) => Trusted(m, ev)
    case Forget(alias) => alias in m
  }

  function Apply(m: Pins, ev: Event): Pins {
    if !Writes(m, ev) then m
    else match ev
      case Check(alias, pub, now) =>
        if alias in m then m[alias := m[alias].(lastSeen := now)] else m[alias := Peer(alias, pub, now, now)]
      case Forget(alias) => m - {alias}
  }

  /** The files after a save of the list, or after as much of it as was done. */
  function DiskAfter(d: Disk, list: seq<Peer>, ending: Ending): Disk {
    match ending
    case Saves => Disk(Some(Whole(list)), None)
    case WriteFails(left) => d.(tmp := left)
    case RenameFails => d.(tmp := Some(Whole(list)))
    case Dies(Early, left) => d.(tmp := left)
    case Dies(BeforeRename, _) => d.(tmp := Some(Whole(list)))
    case Dies(AfterRename, _) => Disk(Some(Whole(list)), None)
  }

  function Load(d: Disk): Option<Pins> {
    match d.main
    case None => Some(map[])
    case Some(Whole(list)) => Some(Loaded(list))
    case Some(Torn) => None
  }

  datatype State = State(pins: Pins, disk: Disk)

  /** The main file, if there is one, is the listing of some pins. */
  ghost predicate Sound(d: Disk) {
    && d.main != Some(Torn)
    && (d.main.Some? ==> Ascending(d.main.value.list))
  }

  ghost predicate Inv(s: State) {
    Keyed(s.pins) && Sound(s.disk)
  }

  ghost function DiskStep(s: State, ev: Event, ending: Ending): Disk
    requires Keyed(s.pins)
  {
    if Writes(s.pins, ev) then DiskAfter(s.disk, Listing(Apply(s.pins, ev)), ending) else s.disk
  }

  function Opened(d: Disk): Pins {
    match Load(d) case Some(m) => m case None => map[]
  }

  ghost function Step(s: State, op: Op): State
    requires Keyed(s.pins)
  {
    match op
    case Do(ev, ending) =>
      var d := DiskStep(s, ev, ending);
      State(if ending.Dies? then Opened(d) else Apply(s.pins, ev), d)
    case Reopen => State(Opened(s.disk), s.disk)
  }

  lemma OpenedIsKeyed(d: Disk)
    requires Sound(d)
    ensures Load(d).Some? && Keyed(Opened(d))
    ensures d.main.Some? ==> Enumerates(d.main.value.list, Opened(d))
  {
    if d.main.Some? {
      AscendingIsDistinct(d.main.value.list);
      LoadedEnumerates(d.main.value.list);
    }
  }

  /** A save replaces the old list by the new one or leaves it: a crash at any point does one of the two. */
  lemma SaveIsAtomic(s: State, ev: Event, ending: Ending)
    requires Inv(s)
    ensures var d := DiskStep(s, ev, ending);
      && Sound(d)
      && Opened(d) == (if Writes(s.pins, ev) && (ending.Saves? || (ending.Dies? && ending.stage.AfterRename?))
                       then Apply(s.pins, ev) else Opened(s.disk))
  {
    if Writes(s.pins, ev) {
      var m := Apply(s.pins, ev);
      ReloadsToTheSame(Listing(m), m);
    }
  }

  lemma StepKeepsInv(s: State, op: Op)
    requires Inv(s)
    ensures Inv(Step(s, op))
  {
    if op.Do? { SaveIsAtomic(s, op.event, op.ending); }
    OpenedIsKeyed(Step(s, op).disk);
  }

  // Runs, against the history of events.

  const FIRST_OPEN := State(map[], Disk(None, None))

  ghost function Run(ops: seq<Op>): (s: State)
    ensures Inv(s)
  {
    if ops == [] then FIRST_OPEN
    else
      var n := |ops| - 1;
      StepKeepsInv(Run(ops[..n]), ops[n]);
      Step(Run(ops[..n]), ops[n])
  }

  /** The key pinned for a by a history of events. */
  function Pinned(h: seq<Event>, a: string): Option<Pub> {
    if h == [] then None
    else
      var before := Pinned(h[..|h| - 1], a);
      match h[|h| - 1]
      case Check(b, pub, _) =>
        if b == a && before.None? && |pub| == PUBLIC_KEY_SIZE then Some(pub) else before
      case Forget(b) => if b == a then None else before
  }

  ghost predicate ForgottenIn(h: seq<Event>, a: string, from: int, to: int) {
    exists i :: from <= i < to && 0 <= i < |h| && h[i] == Forget(a)
  }

  predicate Offers(ev: Event, a: string) {
    ev.Check? && ev.alias == a && |ev.pub| == PUBLIC_KEY_SIZE
  }

  /** Event i offers the first key for a since the last time a was forgotten. */
  ghost predicate FirstSinceForget(h: seq<Event>, a: string, i: int) {
    && 0 <= i < |h| && Offers(h[i], a)
    && !ForgottenIn(h, a, i, |h|)
    && forall j | 0 <= j < i && Offers(h[j], a) :: ForgottenIn(h, a, j, i)
  }

  lemma ForgottenInPrefix(h: seq<Event>, a: string, from: int, to: int)
    requires h != [] && to < |h|
    ensures ForgottenIn(h, a, from, to) <==> ForgottenIn(h[..|h| - 1], a, from, to)
  {
    var g := h[..|h| - 1];
    if ForgottenIn(h, a, from, to) {
      var i :| from <= i < to && 0 <= i < |h| && h[i] == Forget(a);
      assert g[i] == Forget(a);
    }
  }

  lemma {:induction false} NoneMeansForgotten(h: seq<Event>, a: string)
    requires Pinned(h, a).None?
    ensures forall j | 0 <= j < |h| && Offers(h[j], a) :: ForgottenIn(h, a, j, |h|)
  {
    if h != [] {
      var n := |h| - 1;
      var g := h[..n];
      if h[n] != Forget(a) { NoneMeansForgotten(g, a); }
      forall j | 0 <= j < |h| && Offers(h[j], a)
        ensures ForgottenIn(h, a, j, |h|)
      {
        if h[n] != Forget(a) {
          assert j < n && g[j] == h[j];
          ForgottenInPrefix(h, a, j, n);
        }
      }
    }
  }

  lemma {:induction false} PinnedHasFirst(h: seq<Event>, a: string) returns (i: int)
    requires Pinned(h, a).Some?
    ensures FirstSinceForget(h, a, i) && Some(h[i].pub) == Pinned(h, a)
  {
    var n := |h| - 1;
    var g := h[..n];
    if Pinned(g, a).None? {
      i := n;
      NoneMeansForgotten(g, a);
      forall j | 0 <= j < n && Offers(h[j], a)
        ensures ForgottenIn(h, a, j, n)
      {
        assert g[j] == h[j];
        ForgottenInPrefix(h, a, j, n);
      }
    } else {
      i := PinnedHasFirst(g, a);
      LaterEvent(h, a, i);
    }
  }

  lemma LaterEvent(h: seq<Event>, a: string, i: int)
    requires h != [] && 0 <= i < |h| - 1 && h[|h| - 1] != Forget(a)
    ensures FirstSinceForget(h, a, i) <==> FirstSinceForget(h[..|h| - 1], a, i)
  {
    var n := |h| - 1;
    var g := h[..n];
    ForgottenInPrefix(h, a, i, n);
    assert ForgottenIn(h, a, i, |h|) <==> ForgottenIn(h, a, i, n);
    forall j | 0 <= j < i
      ensures g[j] == h[j] && (ForgottenIn(h, a, j, i) <==> ForgottenIn(g, a, j, i))
    {
      ForgottenInPrefix(h, a, j, i);
    }
  }

  lemma {:induction false} FirstIsPinned(h: seq<Event>, a: string, i: int)
    requires FirstSinceForget(h, a, i)
    ensures Pinned(h, a) == Some(h[i].pub)
  {
    var n := |h| - 1;
    var g := h[..n];
    assert h[n] != Forget(a);
    if i < n {
      LaterEvent(h, a, i);
      FirstIsPinned(g, a, i);
    } else if Pinned(g, a).Some? {
      var j := PinnedHasFirst(g, a);
      assert h[j] == g[j];
      ForgottenInPrefix(h, a, j, n);
    }
  }

  /** The pin is the first key offered since the alias was last forgotten. */
  lemma PinnedIsFirst(h: seq<Event>, a: string, pub: Pub)
    ensures Pinned(h, a) == Some(pub) <==> exists i :: FirstSinceForget(h, a, i) && h[i].pub == pub
  {
    if Pinned(h, a).Some? {
      var i := PinnedHasFirst(h, a);
    }
    forall i | FirstSinceForget(h, a, i)
      ensures Pinned(h, a) == Some(h[i].pub)
    {
      FirstIsPinned(h, a, i);
    }
  }

  /** The events memory stands for, and those the file stands for. */
  datatype History = History(mem: seq<Event>, file: seq<Event>)

  predicate Kept(h: seq<Event>, ev: Event) {
    match ev
    case Check(a, pub, _) => |pub| == PUBLIC_KEY_SIZE && (Pinned(h, a).Some? ==> Pinned(h, a) == Some(pub))
    case Forget(a) => Pinned(h, a).Some?
  }

  predicate Commits(ending: Ending) {
    ending.Saves? || (ending.Dies? && ending.stage.AfterRename?)
  }

  function Recall(h: History, op: Op): History {
    match op
    case Do(ev, ending) =>
      var file := if Commits(ending) && Kept(h.mem, ev) then h.mem + [ev] else h.file;
      History(if ending.Dies? then file else h.mem + [ev], file)
    case Reopen => History(h.file, h.file)
  }

  function Past(ops: seq<Op>): History {
    if ops == [] then History([], []) else Recall(Past(ops[..|ops| - 1]), ops[|ops| - 1])
  }

  ghost predicate Matches(m: Pins, h: seq<Event>) {
    forall a :: Pinned(h, a) == if a in m then Some(m[a].pub) else None
  }

  lemma MatchesApply(m: Pins, h: seq<Event>, ev: Event)
    requires Keyed(m) && Matches(m, h)
    ensures Matches(Apply(m, ev), h + [ev]) && (Writes(m, ev) <==> Kept(h, ev))
  {
    var now := h + [ev];
    assert now[..|now| - 1] == h;
    assert Pinned(h, ev.alias) == if ev.alias in m then Some(m[ev.alias].pub) else None;
  }

  /**
  Over every run with failed saves, crashes and reopens, memory pins what the surviving events pin, and the file pins
  what they pinned at the last save that got as far as its rename.
  */
  lemma {:induction false} RunRefinesHistory(ops: seq<Op>)
    ensures Matches(Run(ops).pins, Past(ops).mem)
    ensures Load(Run(ops).disk).Some? && Matches(Opened(Run(ops).disk), Past(ops).file)
  {
    if ops != [] {
      var n := |ops| - 1;
      RunRefinesHistory(ops[..n]);
      StepRefines(Run(ops[..n]), Past(ops[..n]), ops[n]);
    }
    OpenedIsKeyed(Run(ops).disk);
  }

  lemma StepRefines(s: State, h: History, op: Op)
    requires Inv(s) && Matches(s.pins, h.mem) && Matches(Opened(s.disk), h.file)
    ensures Matches(Step(s, op).pins, Recall(h, op).mem)
    ensures Matches(Opened(Step(s, op).disk), Recall(h, op).file)
  {
    if op.Do? {
      MatchesApply(s.pins, h.mem, op.event);
      SaveIsAtomic(s, op.event, op.ending);
    }
  }

  // The times.

  predicate Sights(ev: Event, a: string, pub: Option<Pub>) {
    ev.Check? && ev.alias == a && Some(ev.pub) == pub
  }

  /** Event k offers the pinned key for a, and none after it does. */
  ghost predicate LastSighting(h: seq<Event>, a: string, k: int) {
    0 <= k < |h| && Sights(h[k], a, Pinned(h, a)) && forall j | k < j < |h| :: !Sights(h[j], a, Pinned(h, a))
  }

  /** The entry is of the first offer since a was forgotten; it says when that was, and when the key came last. */
  ghost predicate Tells(e: Peer, h: seq<Event>, a: string, i: int, k: int) {
    FirstSinceForget(h, a, i) && LastSighting(h, a, k) && e == Peer(a, h[i].pub, h[i].now, h[k].now)
  }

  ghost predicate Timed(m: Pins, h: seq<Event>) {
    forall a | a in m :: exists i, k :: Tells(m[a], h, a, i, k)
  }

  lemma FirstOffer(h: seq<Event>, a: string, pub: Pub, now: int)
    requires Pinned(h, a).None? && |pub| == PUBLIC_KEY_SIZE
    ensures Tells(Peer(a, pub, now, now), h + [Check(a, pub, now)], a, |h|, |h|)
  {
    var all := h + [Check(a, pub, now)];
    assert all[..|h|] == h;
    NoneMeansForgotten(h, a);
    forall j | 0 <= j < |h| && Offers(all[j], a)
      ensures ForgottenIn(all, a, j, |h|)
    {
      assert h[j] == all[j];
      ForgottenInPrefix(all, a, j, |h|);
    }
  }

  lemma SeenAgain(e: Peer, h: seq<Event>, a: string, i: int, k: int, now: int)
    requires Tells(e, h, a, i, k) && Pinned(h, a) == Some(e.pub)
    ensures Tells(e.(lastSeen := now), h + [Check(a, e.pub, now)], a, i, |h|)
  {
    var all := h + [Check(a, e.pub, now)];
    assert all[..|h|] == h && all[i] == h[i];
    LaterEvent(all, a, i);
  }

  lemma NotSeen(e: Peer, h: seq<Event>, a: string, i: int, k: int, ev: Event)
    requires Tells(e, h, a, i, k) && Pinned(h, a) == Some(e.pub) && ev != Forget(a) && !Sights(ev, a, Pinned(h, a))
    ensures Tells(e, h + [ev], a, i, k)
  {
    var all := h + [ev];
    assert all[..|h|] == h && all[i] == h[i] && all[k] == h[k];
    LaterEvent(all, a, i);
    assert Pinned(all, a) == Pinned(h, a);
    assert forall j | k < j < |h| :: all[j] == h[j];
  }

  lemma TimedEntry(m: Pins, h: seq<Event>, ev: Event, a: string)
    requires Keyed(m) && Matches(m, h) && Timed(m, h) && a in Apply(m, ev)
    ensures exists i, k :: Tells(Apply(m, ev)[a], h + [ev], a, i, k)
  {
    assert Pinned(h, a) == if a in m then Some(m[a].pub) else None;
    if a !in m {
      FirstOffer(h, a, ev.pub, ev.now);
    } else {
      var i, k :| Tells(m[a], h, a, i, k);
      if Sights(ev, a, Pinned(h, a)) { SeenAgain(m[a], h, a, i, k, ev.now); } else { NotSeen(m[a], h, a, i, k, ev); }
    }
  }

  lemma TimedApply(m: Pins, h: seq<Event>, ev: Event)
    requires Keyed(m) && Matches(m, h) && Timed(m, h)
    ensures Timed(Apply(m, ev), h + [ev])
  {
    forall a | a in Apply(m, ev)
      ensures exists i, k :: Tells(Apply(m, ev)[a], h + [ev], a, i, k)
    {
      TimedEntry(m, h, ev, a);
    }
  }

  lemma TimedStep(s: State, h: History, op: Op)
    requires Inv(s) && Matches(s.pins, h.mem) && Timed(s.pins, h.mem) && Timed(Opened(s.disk), h.file)
    ensures Timed(Step(s, op).pins, Recall(h, op).mem) && Timed(Opened(Step(s, op).disk), Recall(h, op).file)
  {
    if op.Do? {
      MatchesApply(s.pins, h.mem, op.event);
      TimedApply(s.pins, h.mem, op.event);
      SaveIsAtomic(s, op.event, op.ending);
    }
  }

  /** So every entry, in memory and in the file, says truly when its key was first and last offered. */
  lemma {:induction false} TimesAreHistory(ops: seq<Op>)
    ensures Timed(Run(ops).pins, Past(ops).mem) && Timed(Opened(Run(ops).disk), Past(ops).file)
  {
    if ops != [] {
      TimesAreHistory(ops[..|ops| - 1]);
      RunRefinesHistory(ops[..|ops| - 1]);
      TimedStep(Run(ops[..|ops| - 1]), Past(ops[..|ops| - 1]), ops[|ops| - 1]);
    }
  }

  ghost predicate AlwaysSaves(ops: seq<Op>) {
    forall op | op in ops :: op.Do? ==> Commits(op.ending)
  }

  function Events(ops: seq<Op>): seq<Event> {
    if ops == [] then []
    else Events(ops[..|ops| - 1]) + if ops[|ops| - 1].Do? then [ops[|ops| - 1].event] else []
  }

  ghost predicate SamePins(h: seq<Event>, g: seq<Event>) {
    forall a :: Pinned(h, a) == Pinned(g, a)
  }

  lemma SamePinsStep(h: seq<Event>, g: seq<Event>, ev: Event)
    requires SamePins(h, g)
    ensures SamePins(h + [ev], g + [ev]) && (Kept(h, ev) <==> Kept(g, ev)) && (!Kept(h, ev) ==> SamePins(h, g + [ev]))
  {
    assert (h + [ev])[..|h|] == h && (g + [ev])[..|g|] == g;
    assert Pinned(h, ev.alias) == Pinned(g, ev.alias);
  }

  lemma {:induction false} NothingForgets(ops: seq<Op>)
    requires AlwaysSaves(ops)
    ensures SamePins(Past(ops).mem, Events(ops)) && SamePins(Past(ops).file, Events(ops))
  {
    if ops != [] {
      var n := |ops| - 1;
      assert forall op | op in ops[..n] :: op in ops;
      NothingForgets(ops[..n]);
      if ops[n].Do? {
        assert ops[n] in ops;
        SamePinsStep(Past(ops[..n]).mem, Events(ops[..n]), ops[n].event);
        SamePinsStep(Past(ops[..n]).file, Events(ops[..n]), ops[n].event);
      } else {
        assert Events(ops) == Events(ops[..n]);
      }
    }
  }

  /** With saves that succeed, a key is trusted exactly when no other came first since the last Forget. */
  lemma TrustOnFirstUse(ops: seq<Op>, a: string, pub: Pub, now: int)
    requires AlwaysSaves(ops)
    ensures Trusted(Run(ops).pins, Check(a, pub, now)) <==>
      (|pub| == 32 && forall i :: FirstSinceForget(Events(ops), a, i) ==> Events(ops)[i].pub == pub)
  {
    RunRefinesHistory(ops);
    NothingForgets(ops);
    assert Pinned(Past(ops).mem, a) == Pinned(Events(ops), a);
    FirstDecides(Events(ops), a, pub);
  }

  lemma FirstDecides(h: seq<Event>, a: string, pub: Pub)
    ensures (Pinned(h, a).Some? ==> Pinned(h, a) == Some(pub)) <==>
      (forall i :: FirstSinceForget(h, a, i) ==> h[i].pub == pub)
  {
    forall i | FirstSinceForget(h, a, i)
      ensures Pinned(h, a) == Some(h[i].pub)
    {
      FirstIsPinned(h, a, i);
    }
    if Pinned(h, a).Some? {
      var i := PinnedHasFirst(h, a);
    }
  }

  /** A pin whose save failed is gone after a reopen: then any key is the first. */
  lemma UnsavedPinIsLost(a: string, k: Pub, other: Pub, now: int)
    requires |k| == |other| == PUBLIC_KEY_SIZE
    ensures Trusted(Run([Do(Check(a, k, now), RenameFails), Reopen]).pins, Check(a, other, now))
    ensures k != other ==> !Trusted(Run([Do(Check(a, k, now), RenameFails)]).pins, Check(a, other, now))
  {
    var one := [Do(Check(a, k, now), RenameFails)];
    var two := one + [Reopen];
    assert one[..0] == [] && two[..1] == one;
    assert Run(one) == Step(FIRST_OPEN, one[0]);
    assert Run(two) == Step(Run(one), Reopen);
    assert two == [Do(Check(a, k, now), RenameFails), Reopen];
  }

  // The keyring object.

  datatype Verdict = Trusting(firstSeen: bool) | SaveError(firstSeen: bool) | Untrusted | BadSize

  class Keyring {
    var pins: Pins
    /** The directory, as this process leaves it. */
    var disk: Disk

    ghost predicate Valid()
      reads this
    {
      Inv(State(pins, disk))
    }

    constructor (disk: Disk)
      ensures this.pins == map[] && this.disk == disk
    {
      pins := map[];
      this.disk := disk;
    }

    /**
    OpenKeyring: no file means no pins; a directory that cannot be made, a file that cannot be read and one that does
    not parse are errors.
    */
    static method OpenKeyring(dirMade: bool, readable: bool, disk: Disk) returns (k: Option<Keyring>)
      ensures k.Some? <==> dirMade && (readable || disk.main.None?) && Load(disk).Some?
      ensures k.Some? ==> fresh(k.value) && k.value.disk == disk && k.value.pins == Opened(disk)
      ensures Sound(disk) && k.Some? ==> k.value.Valid()
    {
      if Sound(disk) { OpenedIsKeyed(disk); }
      if !dirMade {
        return None;
      }
      var kr := new Keyring(disk);
      if disk.main.None? {
        return Some(kr);
      }
      if !readable || disk.main.value.Torn? {
        return None;
      }
      kr.LoadEntries(disk.main.value.list);
      return Some(kr);
    }

    method LoadEntries(entries: seq<Peer>)
      requires pins == map[]
      modifies this`pins
      ensures pins == Loaded(entries)
    {
      for i := 0 to |entries|
        invariant pins == Loaded(entries[..i])
      {
        assert entries[..i + 1][..i] == entries[..i];
        pins := pins[entries[i].alias := entries[i]];
      }
      assert entries[..|entries|] == entries;
    }

    method List() returns (out: seq<Peer>)
      requires Valid()
      ensures out == Listing(pins)
    {
      var left := pins;
      out := [];
      while left != map[]
        invariant Keyed(left) && left.Keys <= pins.Keys
        invariant forall a | a in left :: left[a] == pins[a]
        invariant DistinctAliases(out)
        invariant forall e | e in out :: e.alias in pins && e.alias !in left && pins[e.alias] == e
        invariant forall a | a in pins && a !in left :: pins[a] in out
        decreases |left|
      {
        var a :| a in left;
        var rest := left - {a};
        assert left.Keys == rest.Keys + {a};
        out := out + [left[a]];
        left := rest;
      }
      SortSorts(out);
      out := Sort(out);
      OneSortedList(out, Listing(pins));
    }

    /** saveLocked, up to the point the ending says. */
    method SaveLocked(ending: Ending) returns (ok: bool)
      requires Valid()
      modifies this`disk
      ensures disk == DiskAfter(old(disk), Listing(pins), ending)
      ensures ok <==> ending.Saves?
    {
      var raw := List();
      if ending.WriteFails? || (ending.Dies? && ending.stage.Early?) {
        disk := disk.(tmp := ending.left);
        return false;
      }
      disk := disk.(tmp := Some(Whole(raw)));
      if ending.RenameFails? || (ending.Dies? && ending.stage.BeforeRename?) {
        return false;
      }
      disk := Disk(disk.tmp, None);
      return ending.Saves?;
    }

    method CheckPeer(alias: string, pub: Pub, now: int, ending: Ending) returns (v: Verdict)
      requires Valid()
      modifies this
      ensures Valid()
      ensures pins == Apply(old(pins), Check(alias, pub, now))
      ensures disk == old(DiskStep(State(pins, disk), Check(alias, pub, now), ending))
      ensures v.BadSize? <==> |pub| != PUBLIC_KEY_SIZE
      ensures v.Untrusted? <==> |pub| == PUBLIC_KEY_SIZE && !Trusted(old(pins), Check(alias, pub, now))
      ensures v.Trusting? <==> Trusted(old(pins), Check(alias, pub, now)) && ending.Saves?
      ensures v == Trusting(true) || v == SaveError(true) ==> alias !in old(pins)
      ensures v == Trusting(false) || v == SaveError(false) ==> alias in old(pins)
    {
      if |pub| != PUBLIC_KEY_SIZE {
        return BadSize;
      }
      SaveIsAtomic(State(pins, disk), Check(alias, pub, now), ending);
      var first := alias !in pins;
      if first {
        pins := pins[alias := Peer(alias, pub, now, now)];
      } else {
        if pins[alias].pub != pub {
          return Untrusted;
        }
        pins := pins[alias := pins[alias].(lastSeen := now)];
      }
      var ok := SaveLocked(ending);
      return if ok then Trusting(first) else SaveError(first);
    }

    method ForgetPeer(alias: string, ending: Ending) returns (ok: bool)
      requires Valid()
      modifies this
      ensures Valid()
      ensures pins == Apply(old(pins), Forget(alias))
      ensures disk == old(DiskStep(State(pins, disk), Forget(alias), ending))
      ensures ok <==> alias !in old(pins) || ending.Saves?
    {
      if alias !in pins {
        return true;
      }
      SaveIsAtomic(State(pins, disk), Forget(alias), ending);
      pins := pins - {alias};
      ok := SaveLocked(ending);
    }
  }
}
