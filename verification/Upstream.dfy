/** The file system behind the cache: a tree of named nodes, and the calls the WebDAV layer makes on it. */
module Upstream {
  import opened Paths

  type Path = seq<string>

  /** What Stat reports besides the name: the kind, and size and times rolled into one number. */
  datatype Node = File(meta: int) | Dir(meta: int)

  type Tree = map<Path, Node>

  datatype Info = Info(name: string, node: Node)

  datatype Answer = Found(info: Info) | Missing

  datatype Listing = Listing(rows: seq<Info>, eof: bool)

  datatype Flags = Flags(wronly: bool, rdwr: bool, create: bool, trunc: bool, append: bool) {
    predicate Writable() { wronly || rdwr }
    predicate Any() { wronly || rdwr || create || trunc || append }
  }

  function Last(p: Path): string {
    if p == [] then "/" else p[|p| - 1]
  }

  predicate IsDir(t: Tree, p: Path) {
    p in t && t[p].Dir?
  }

  predicate SameKind(a: Node, b: Node) {
    a.Dir? == b.Dir?
  }

  ghost predicate Valid(t: Tree) {
    && IsDir(t, [])
    && (forall p | p in t :: Canonical(p))
    && (forall p | p in t :: IsDir(t, Parent(p)) || p == [])
  }

  ghost predicate Childless(t: Tree, p: Path) {
    forall q | q in t :: q == [] || Parent(q) != p
  }

  /** Nothing stands below p at any depth. */
  predicate Bare(t: Tree, p: Path) {
    forall q | q in t :: !(p < q)
  }

  /** What is no directory has nothing below it. */
  predicate Clear(t: Tree, p: Path) {
    IsDir(t, p) || Bare(t, p)
  }

  function StatOf(t: Tree, p: Path): Answer {
    if p in t then Found(Info(Last(p), t[p])) else Missing
  }

  /** The rows name each child of p once, and every row is what Stat says of that child. */
  ghost predicate Lists(t: Tree, p: Path, rows: seq<Info>) {
    && (forall i, j | 0 <= i < j < |rows| :: rows[i].name != rows[j].name)
    && (forall i | 0 <= i < |rows| :: StatOf(t, p + [rows[i].name]) == Found(rows[i]))
    && (forall q | q in t && q != [] && Parent(q) == p :: Names(rows, Last(q)))
  }

  ghost predicate Names(rows: seq<Info>, name: string) {
    exists i :: 0 <= i < |rows| && rows[i].name == name
  }

  /** A change below p's parent changes the parent's times. */
  function Touch(t: Tree, p: Path, stamp: int): Tree {
    if p != [] && IsDir(t, Parent(p)) then t[Parent(p) := Dir(stamp)] else t
  }

  function Put(t: Tree, p: Path, node: Node, stamp: int): Tree {
    Touch(t, p, stamp)[p := node]
  }

  function Mkdir(t: Tree, p: Path, stamp: int): Tree {
    if p != [] && p !in t && IsDir(t, Parent(p)) then Put(t, p, Dir(stamp), stamp) else t
  }

  function Without(t: Tree, p: Path): Tree {
    map q | q in t && !(p <= q) :: t[q]
  }

  function RemoveAll(t: Tree, p: Path, stamp: int): Tree {
    if p == [] || p !in t then t else Touch(Without(t, p), p, stamp)
  }

  predicate Replaceable(t: Tree, a: Path, b: Path) {
    b in t && a in t ==> SameKind(t[a], t[b]) && Bare(t, b)
  }

  predicate CanRename(t: Tree, a: Path, b: Path) {
    a != [] && b != [] && a in t && a != b && !(a <= b) && !(b <= a) && IsDir(t, Parent(b)) && Replaceable(t, a, b)
  }

  /** The subtree at a as it appears at b. */
  function Moved(t: Tree, a: Path, b: Path): Tree {
    map q | q in (set r | r in t && a <= r :: b + r[|a|..]) && a + q[|b|..] in t :: t[a + q[|b|..]]
  }

  function Rename(t: Tree, a: Path, b: Path, stamp: int): Tree {
    if !CanRename(t, a, b) then t
    else Touch(Touch(Without(Without(t, a), b) + Moved(t, a, b), a, stamp), b, stamp)
  }

  predicate CanOpen(t: Tree, p: Path, f: Flags) {
    if p in t then t[p].File? || !f.Any() else f.create && p != [] && IsDir(t, Parent(p))
  }

  function Open(t: Tree, p: Path, f: Flags, stamp: int): Tree {
    if !CanOpen(t, p, f) then t
    else if p !in t then Put(t, p, File(stamp), stamp)
    else if f.trunc && t[p].File? then t[p := File(stamp)]
    else t
  }

  function Write(t: Tree, p: Path, meta: int): Tree {
    if p in t && t[p].File? then t[p := File(meta)] else t
  }

  /** At q nothing changes, or a directory has new times. */
  predicate TimesOnly(t: Tree, u: Tree, q: Path) {
    (IsDir(t, q) && IsDir(u, q)) || ((q in t <==> q in u) && (q in t ==> t[q] == u[q]))
  }

  /** The footprint of one call on p: p itself and the times of its parent directory, p being childless throughout. */
  ghost predicate LeafEdit(t: Tree, u: Tree, p: Path) {
    || t == u
    || (&& p != [] && Childless(t, p) && Childless(u, p) && TimesOnly(t, u, Parent(p))
        && forall q :: q != p && q != Parent(p) ==> (q in t <==> q in u) && (q in t ==> t[q] == u[q]))
  }

  lemma BareIsChildless(t: Tree, p: Path)
    requires Bare(t, p)
    ensures Childless(t, p)
  {
    assert forall q | q in t && q != [] && Parent(q) == p :: p < q;
  }

  // ------------------------------------------------------------------------------------------------------------
  // Calls on a path with nothing below it
  // ------------------------------------------------------------------------------------------------------------

  lemma PutIsLeafEdit(t: Tree, p: Path, node: Node, stamp: int)
    requires p != [] && IsDir(t, Parent(p)) && Bare(t, p)
    ensures LeafEdit(t, Put(t, p, node, stamp), p)
  {
    BareIsChildless(t, p);
  }

  lemma MkdirIsLeafEdit(t: Tree, p: Path, stamp: int)
    requires Clear(t, p)
    ensures LeafEdit(t, Mkdir(t, p, stamp), p)
  {
    if Mkdir(t, p, stamp) != t { PutIsLeafEdit(t, p, Dir(stamp), stamp); }
  }

  lemma RemoveIsLeafEdit(t: Tree, p: Path, stamp: int)
    requires Bare(t, p)
    ensures LeafEdit(t, RemoveAll(t, p, stamp), p)
  {
    if p != [] && p in t {
      BareIsChildless(t, p);
      WithoutLeaf(t, p);
      assert Parent(p) != p;
    }
  }

  lemma OpenIsLeafEdit(t: Tree, p: Path, f: Flags, stamp: int)
    requires Clear(t, p) && IsDir(t, [])
    ensures LeafEdit(t, Open(t, p, f, stamp), p)
    ensures !f.Any() ==> Open(t, p, f, stamp) == t
  {
    if Open(t, p, f, stamp) != t {
      BareIsChildless(t, p);
      if p !in t { PutIsLeafEdit(t, p, File(stamp), stamp); }
    }
  }

  lemma OnlyItself(t: Tree, p: Path)
    requires Bare(t, p)
    ensures forall q | q in t && p <= q :: q == p
  {
    assert forall q | q in t && p <= q :: q == p || p < q;
  }

  lemma MovedLeaf(t: Tree, a: Path, b: Path)
    requires Bare(t, a) && a in t
    ensures Moved(t, a, b) == map[b := t[a]]
  {
    assert b == b + a[|a|..] && a + b[|b|..] == a;
    forall q | q in Moved(t, a, b)
      ensures q == b
    {
      var r :| r in t && a <= r && q == b + r[|a|..];
    }
  }

  lemma WithoutLeaf(t: Tree, p: Path)
    requires Bare(t, p)
    ensures Without(t, p) == t - {p}
  {
    OnlyItself(t, p);
  }

  lemma TouchPut(t: Tree, a: Path, b: Path, node: Node, stamp: int)
    requires Parent(a) != b
    ensures Touch(t[b := node], a, stamp) == Touch(t, a, stamp)[b := node]
  {
  }

  lemma WithoutBoth(t: Tree, a: Path, b: Path, node: Node)
    requires Bare(t, b)
    ensures Without(t - {a}, b) + map[b := node] == (t - {a})[b := node]
  {
    OnlyItself(t, b);
  }

  /** Renaming a path with nothing below it is taking its node away and putting it back under the other name. */
  lemma RenameIsPut(t: Tree, a: Path, b: Path, stamp: int)
    requires Bare(t, a) && Bare(t, b) && CanRename(t, a, b)
    ensures Rename(t, a, b, stamp) == Put(RemoveAll(t, a, stamp), b, t[a], stamp)
  {
    WithoutLeaf(t, a);
    MovedLeaf(t, a, b);
    WithoutBoth(t, a, b, t[a]);
    assert Parent(a) <= a && Parent(b) != b;
    TouchPut(t - {a}, a, b, t[a], stamp);
    TouchPut(Touch(t - {a}, a, stamp), b, b, t[a], stamp);
  }

  lemma RenameIsTwoLeafEdits(t: Tree, a: Path, b: Path, stamp: int)
    requires Bare(t, a) && Bare(t, b) && CanRename(t, a, b)
    ensures var mid := RemoveAll(t, a, stamp); LeafEdit(t, mid, a) && LeafEdit(mid, Rename(t, a, b, stamp), b)
  {
    RemoveIsLeafEdit(t, a, stamp);
    RenameIsPut(t, a, b, stamp);
    WithoutLeaf(t, a);
    var mid := RemoveAll(t, a, stamp);
    assert !(a <= Parent(b));
    PutIsLeafEdit(mid, b, t[a], stamp);
  }

  // ------------------------------------------------------------------------------------------------------------
  // Valid trees
  // ------------------------------------------------------------------------------------------------------------

  lemma {:induction false} AncestorsPresent(t: Tree, p: Path, k: nat)
    requires Valid(t) && p in t && k <= |p|
    ensures p[..k] in t
    decreases |p|
  {
    if k == |p| {
      assert p[..k] == p;
    } else {
      AncestorsPresent(t, Parent(p), k);
      assert Parent(p)[..k] == p[..k];
    }
  }

  /** In a valid tree a path with something below it has a child. */
  lemma ChildAbove(t: Tree, p: Path, q: Path)
    requires Valid(t) && q in t && p < q
    ensures var c := q[..|p| + 1]; c in t && c != [] && Parent(c) == p
  {
    AncestorsPresent(t, q, |p| + 1);
  }

  lemma NothingBelow(t: Tree, p: Path)
    requires Valid(t) && Childless(t, p)
    ensures Bare(t, p)
  {
    forall q | q in t
      ensures !(p < q)
    {
      if p < q { ChildAbove(t, p, q); }
    }
  }

  lemma ValidIsClear(t: Tree, p: Path)
    requires Valid(t)
    ensures Clear(t, p)
  {
    if !IsDir(t, p) { NothingBelow(t, p); }
  }

  lemma PutIsValid(t: Tree, p: Path, node: Node, stamp: int)
    requires Valid(t) && Canonical(p) && p != [] && IsDir(t, Parent(p)) && !IsDir(t, p)
    ensures Valid(Put(t, p, node, stamp))
  {
    var u := Put(t, p, node, stamp);
    assert forall q | q in u :: q in t || q == p;
    forall q | q in u && q != []
      ensures IsDir(u, Parent(q))
    {
      assert IsDir(t, Parent(q)) && Parent(q) != p;
    }
  }

  lemma MkdirIsValid(t: Tree, p: Path, stamp: int)
    requires Valid(t) && Canonical(p)
    ensures Valid(Mkdir(t, p, stamp))
  {
    if Mkdir(t, p, stamp) != t { PutIsValid(t, p, Dir(stamp), stamp); }
  }

  lemma WriteIsValid(t: Tree, p: Path, meta: int)
    requires Valid(t)
    ensures Valid(Write(t, p, meta))
  {
    var u := Write(t, p, meta);
    assert forall q | q in u && q != [] :: IsDir(t, Parent(q)) && IsDir(u, Parent(q));
  }

  lemma OpenIsValid(t: Tree, p: Path, f: Flags, stamp: int)
    requires Valid(t) && Canonical(p)
    ensures Valid(Open(t, p, f, stamp))
  {
    if Open(t, p, f, stamp) != t {
      if p in t { WriteIsValid(t, p, stamp); } else { PutIsValid(t, p, File(stamp), stamp); }
    }
  }

  lemma RemoveIsValid(t: Tree, p: Path, stamp: int)
    requires Valid(t)
    ensures Valid(RemoveAll(t, p, stamp))
  {
    if p != [] && p in t { RemovalIsValid(t, p, stamp); }
  }

  lemma RemovalIsValid(t: Tree, p: Path, stamp: int)
    requires Valid(t) && p != [] && p in t
    ensures Valid(RemoveAll(t, p, stamp))
  {
    var u := RemoveAll(t, p, stamp);
    assert !(p <= Parent(p));
    forall q | q in u && q != []
      ensures IsDir(u, Parent(q))
    {
      assert q in t && !(p <= q) && IsDir(t, Parent(q));
      assert p <= Parent(q) ==> p <= q;
    }
  }

  /** What stands at q after the rename, as a path before it. */
  function Before(a: Path, b: Path, q: Path): Path {
    if b <= q then a + q[|b|..] else q
  }

  lemma PrefixesCompare(a: Path, b: Path, q: Path)
    requires a <= q && b <= q
    ensures a <= b || b <= a
  {
    if |a| <= |b| { assert a == b[..|a|]; } else { assert b == a[..|b|]; }
  }

  lemma MovedHas(t: Tree, a: Path, b: Path, q: Path)
    ensures q in Moved(t, a, b) <==> b <= q && a + q[|b|..] in t
    ensures q in Moved(t, a, b) ==> Moved(t, a, b)[q] == t[a + q[|b|..]]
  {
    if b <= q && a + q[|b|..] in t {
      var r := a + q[|b|..];
      assert a <= r && q == b + r[|a|..];
    }
  }

  lemma TouchShape(t: Tree, p: Path, stamp: int, q: Path)
    ensures var u := Touch(t, p, stamp);
      (q in u <==> q in t) && (q in u ==> SameKind(u[q], t[q]) && (q != Parent(p) ==> u[q] == t[q]))
  {
  }

  lemma UntouchedShape(t: Tree, a: Path, b: Path, q: Path)
    requires CanRename(t, a, b)
    ensures var v := Without(Without(t, a), b) + Moved(t, a, b);
      && (q in v <==> Before(a, b, q) in t && (a <= q ==> b <= q))
      && (q in v ==> v[q] == t[Before(a, b, q)])
  {
    MovedHas(t, a, b, q);
  }

  lemma RenameShape(t: Tree, a: Path, b: Path, stamp: int, q: Path)
    requires CanRename(t, a, b)
    ensures var u := Rename(t, a, b, stamp);
      && (q in u <==> Before(a, b, q) in t && (a <= q ==> b <= q))
      && (q in u ==> SameKind(u[q], t[Before(a, b, q)]))
      && (q in u && q != Parent(a) && q != Parent(b) ==> u[q] == t[Before(a, b, q)])
  {
    var v := Without(Without(t, a), b) + Moved(t, a, b);
    UntouchedShape(t, a, b, q);
    TouchShape(v, a, stamp, q);
    TouchShape(Touch(v, a, stamp), b, stamp, q);
  }

  lemma BeforeParent(a: Path, b: Path, q: Path)
    requires q != [] && b != q
    ensures Before(a, b, Parent(q)) == if b <= q then Parent(Before(a, b, q)) else Parent(q)
  {
    if b <= q {
      assert b <= Parent(q);
      assert Parent(a + q[|b|..]) == a + Parent(q)[|b|..];
    }
  }

  lemma ParentStays(t: Tree, a: Path, b: Path, stamp: int, q: Path)
    requires Valid(t) && CanRename(t, a, b) && q in Rename(t, a, b, stamp) && q != []
    ensures IsDir(Rename(t, a, b, stamp), Parent(q))
  {
    RenameShape(t, a, b, stamp, q);
    RenameShape(t, a, b, stamp, Parent(q));
    assert a <= Parent(q) ==> a <= q;
    if q == b {
      assert !(b <= Parent(b));
    } else {
      BeforeParent(a, b, q);
    }
  }

  lemma NameStays(t: Tree, a: Path, b: Path, stamp: int, q: Path)
    requires Valid(t) && CanRename(t, a, b) && Canonical(b) && q in Rename(t, a, b, stamp)
    ensures Canonical(q)
  {
    RenameShape(t, a, b, stamp, q);
    assert Canonical(Before(a, b, q));
    if b <= q { assert q == b + Before(a, b, q)[|a|..]; }
  }

  lemma RenameIsValid(t: Tree, a: Path, b: Path, stamp: int)
    requires Valid(t) && Canonical(b)
    ensures Valid(Rename(t, a, b, stamp))
  {
    if CanRename(t, a, b) { RenamedIsValid(t, a, b, stamp); }
  }

  lemma RenamedIsValid(t: Tree, a: Path, b: Path, stamp: int)
    requires Valid(t) && CanRename(t, a, b) && Canonical(b)
    ensures Valid(Rename(t, a, b, stamp))
  {
    var u := Rename(t, a, b, stamp);
    RenameShape(t, a, b, stamp, []);
    forall q | q in u
      ensures Canonical(q) && (IsDir(u, Parent(q)) || q == [])
    {
      NameStays(t, a, b, stamp, q);
      if q != [] { ParentStays(t, a, b, stamp, q); }
    }
  }
}
