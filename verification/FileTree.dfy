/**
 A tree of directories and files with separate volatile and durable views, and what a power loss may leave
 of it. The rules are those of a single directory, applied to each: a file's content and mode are durable
 once it is synced, a directory's entries once the directory is, and until then every entry change may be
 kept or lost on its own.
 */
module FileTree {
  import opened Bytes
  import FS = FileSystem

  type Name = FS.Name
  type Inode = FS.Inode
  type Entries = FS.Entries
  type Path = seq<Name>

  /** What a program sees at a path. */
  datatype Node = Dir | File(bytes: seq<Byte>, mode: nat)

  type Tree = map<Path, Node>

  /** `versions` holds a directory as last synced, then every version since; the last one is what programs see. */
  datatype Stored = Directory(versions: seq<Entries>) | Content(bytes: seq<Byte>, mode: nat, synced: bool)

  type Disk = map<Inode, Stored>

  predicate Sane(s: Stored) {
    s.Directory? ==> |s.versions| >= 1
  }

  ghost predicate WellFormed(d: Disk) {
    forall i :: i in d ==> Sane(d[i])
  }

  function Parent(p: Path): Path {
    if p == [] then [] else p[..|p| - 1]
  }

  /** The entries of a directory now; a file has none. */
  function Now(s: Stored): Entries {
    if s.Directory? && |s.versions| >= 1 then s.versions[|s.versions| - 1] else map[]
  }

  function Visible(s: Stored): Node {
    match s
    case Directory(_) => Dir
    case Content(bytes, mode, _) => File(bytes, mode)
  }

  // ----- path lookup -----

  function Child(d: Disk, i: Inode, n: Name): Option<Inode> {
    if i in d then FS.Entry(Now(d[i]), n) else None
  }

  /** Path lookup, starting at directory `i`. */
  function Lookup(d: Disk, i: Inode, p: Path): Option<Inode> {
    if p == [] then Some(i)
    else match Lookup(d, i, Parent(p))
      case None => None
      case Some(j) => Child(d, j, p[|p| - 1])
  }

  function At(d: Disk, i: Inode, p: Path): Option<Node> {
    match Lookup(d, i, p)
    case None => None
    case Some(j) => if j in d then Some(Visible(d[j])) else None
  }

  /** `t` is exactly what path lookup finds at and below `i`. */
  ghost predicate Shows(d: Disk, i: Inode, t: Tree) {
    forall p :: At(d, i, p) == if p in t then Some(t[p]) else None
  }

  // ----- power loss -----

  /** `c` is a disk that a power loss may leave of `d`. */
  ghost predicate LossOf(d: Disk, c: Disk) {
    forall i :: i in d ==> i in c && Survives(d[i], c[i])
  }

  /** Each entry of a directory old or new; unsynced content and mode arbitrary. */
  ghost predicate Survives(s: Stored, r: Stored) {
    match s
    case Directory(versions) =>
      && r.Directory? && |r.versions| == 1
      && (forall n :: exists k :: 0 <= k < |versions| && FS.Entry(Now(r), n) == FS.Entry(versions[k], n))
    case Content(bytes, mode, synced) =>
      r.Content? && (synced ==> r.bytes == bytes && r.mode == mode)
  }

  /** Nothing of it can be lost. */
  predicate Settled(s: Stored) {
    match s
    case Directory(versions) => |versions| == 1
    case Content(_, _, synced) => synced
  }

  lemma SettledSurvives(s: Stored, r: Stored)
    requires Settled(s) && Survives(s, r)
    ensures Visible(r) == Visible(s) && Now(r) == Now(s)
  {
    if s.Directory? {
      forall n ensures FS.Entry(Now(r), n) == FS.Entry(Now(s), n) {
      }
      SameEntries(Now(r), Now(s));
    }
  }

  lemma SameEntries(a: Entries, b: Entries)
    requires forall n :: FS.Entry(a, n) == FS.Entry(b, n)
    ensures a == b
  {
    forall n ensures (n in a <==> n in b) && (n in a ==> a[n] == b[n]) {
      assert FS.Entry(a, n) == FS.Entry(b, n);
    }
  }

  /** Among the nodes that are not `prior`, a settled directory leads only to settled nodes. */
  ghost predicate Firm(d: Disk, prior: set<Inode>) {
    forall i, n :: i in d && i !in prior && Settled(d[i]) && n in Now(d[i]) ==> FirmChild(d, prior, Now(d[i])[n])
  }

  ghost predicate FirmChild(d: Disk, prior: set<Inode>, j: Inode) {
    j in d && j !in prior && Settled(d[j])
  }

  /** Whatever a power loss leaves, everything below a settled directory of a firm disk is as it was. */
  lemma {:induction false} FirmSurvives(d: Disk, prior: set<Inode>, c: Disk, i: Inode, p: Path)
    requires Firm(d, prior) && LossOf(d, c) && FirmChild(d, prior, i)
    ensures Lookup(c, i, p) == Lookup(d, i, p) && At(c, i, p) == At(d, i, p)
    ensures Lookup(d, i, p).Some? ==> FirmChild(d, prior, Lookup(d, i, p).value)
    decreases |p|
  {
    if p != [] {
      FirmSurvives(d, prior, c, i, Parent(p));
      var above := Lookup(d, i, Parent(p));
      if above.Some? {
        SettledSurvives(d[above.value], c[above.value]);
      }
    }
    var found := Lookup(d, i, p);
    if found.Some? {
      SettledSurvives(d[found.value], c[found.value]);
    }
  }

  lemma ShowsSurvives(d: Disk, prior: set<Inode>, c: Disk, i: Inode, t: Tree)
    requires Firm(d, prior) && LossOf(d, c) && FirmChild(d, prior, i) && Shows(d, i, t)
    ensures Shows(c, i, t)
  {
    forall p ensures At(c, i, p) == if p in t then Some(t[p]) else None {
      FirmSurvives(d, prior, c, i, p);
    }
  }

  /** A power loss may leave any one version of a directory, whole. */
  lemma LossLeaving(d: Disk, i: Inode, k: nat) returns (c: Disk)
    requires WellFormed(d) && i in d && d[i].Directory? && k < |d[i].versions|
    ensures LossOf(d, c) && Now(c[i]) == d[i].versions[k]
  {
    c := map j | j in d ::
      if j == i then Directory([d[i].versions[k]]) else if d[j].Directory? then Directory([Now(d[j])]) else d[j];
    forall j | j in d ensures Survives(d[j], c[j]) {
      if d[j].Directory? {
        var kept := if j == i then k else |d[j].versions| - 1;
        forall n
          ensures exists m :: 0 <= m < |d[j].versions| && FS.Entry(Now(c[j]), n) == FS.Entry(d[j].versions[m], n)
        {
          assert FS.Entry(Now(c[j]), n) == FS.Entry(d[j].versions[kept], n);
        }
      }
    }
  }

  // ----- the names below one directory -----

  type Names = map<Path, Inode>

  function Resolved(names: Names, p: Path): Option<Inode> {
    if p in names then Some(names[p]) else None
  }

  /** `names` is what path lookup finds below `top`, and no node has two names. */
  ghost predicate Linked(d: Disk, top: Inode, names: Names) {
    && [] in names && names[[]] == top
    && (forall p :: p in names ==> names[p] in d && Parent(p) in names && Sane(d[names[p]]))
    && (forall p, q :: p in names && q in names && names[p] == names[q] ==> p == q)
    && (forall p, n :: p in names ==> FS.Entry(Now(d[names[p]]), n) == Resolved(names, p + [n]))
  }

  function Seen(d: Disk, names: Names): Tree {
    map p | p in names && names[p] in d :: if p in names && names[p] in d then Visible(d[names[p]]) else Dir
  }

  lemma {:induction false} LinkedLookup(d: Disk, top: Inode, names: Names, p: Path)
    requires Linked(d, top, names)
    ensures Lookup(d, top, p) == Resolved(names, p)
    decreases |p|
  {
    if p != [] {
      LinkedLookup(d, top, names, Parent(p));
      assert p == Parent(p) + [p[|p| - 1]];
    }
  }

  lemma LinkedShows(d: Disk, top: Inode, names: Names)
    requires Linked(d, top, names)
    ensures Shows(d, top, Seen(d, names))
  {
    var t := Seen(d, names);
    forall p ensures At(d, top, p) == if p in t then Some(t[p]) else None {
      LinkedLookup(d, top, names, p);
    }
  }

  /** Every name leads through directories. */
  lemma LinkedParent(d: Disk, top: Inode, names: Names, p: Path)
    requires Linked(d, top, names) && p in names && p != []
    ensures d[names[Parent(p)]].Directory?
  {
    assert p == Parent(p) + [p[|p| - 1]];
  }

  /** A new node `s` under the name `n` of directory `g`. */
  function Added(d: Disk, g: Inode, n: Name, i: Inode, s: Stored): Disk
    requires g in d && d[g].Directory?
  {
    d[i := s][g := Directory(d[g].versions + [Now(d[g])[n := i]])]
  }

  /** A place for a new node: a free name in a directory. */
  ghost predicate Room(d: Disk, top: Inode, names: Names, p: Path, i: Inode) {
    && Linked(d, top, names) && p != [] && p !in names && i !in d
    && Parent(p) in names && d[names[Parent(p)]].Directory?
  }

  lemma AddLinked(d: Disk, top: Inode, names: Names, p: Path, i: Inode, s: Stored)
    requires Room(d, top, names, p, i) && Sane(s) && Now(s) == map[]
    ensures var e := Added(d, names[Parent(p)], p[|p| - 1], i, s);
      Linked(e, top, names[p := i]) && Seen(e, names[p := i]) == Seen(d, names)[p := Visible(s)]
  {
    var e, more := Added(d, names[Parent(p)], p[|p| - 1], i, s), names[p := i];
    forall x, m | x in more ensures FS.Entry(Now(e[more[x]]), m) == Resolved(more, x + [m]) {
      if x == p {
        AddedNone(names, p, i, m);
      } else if x == Parent(p) {
        AddedEntry(d, top, names, p, i, s, m);
      } else {
        NoNewEntry(d, top, names, p, i, s, x, m);
      }
    }
    SeenAdded(d, top, names, p, i, s);
  }

  lemma AddedNone(names: Names, p: Path, i: Inode, m: Name)
    requires p !in names && forall q :: q in names ==> Parent(q) in names
    ensures p + [m] !in names[p := i]
  {
    assert Parent(p + [m]) == p;
  }

  lemma AddedEntry(d: Disk, top: Inode, names: Names, p: Path, i: Inode, s: Stored, m: Name)
    requires Room(d, top, names, p, i)
    ensures var e, q := Added(d, names[Parent(p)], p[|p| - 1], i, s), Parent(p);
      FS.Entry(Now(e[names[q]]), m) == Resolved(names[p := i], q + [m])
  {
    var q, n := Parent(p), p[|p| - 1];
    assert p == q + [n];
    assert FS.Entry(Now(d[names[q]]), m) == Resolved(names, q + [m]);
    if m != n { assert (q + [m])[|q|] != p[|q|]; }
  }

  lemma NoNewEntry(d: Disk, top: Inode, names: Names, p: Path, i: Inode, s: Stored, x: Path, m: Name)
    requires Room(d, top, names, p, i) && x in names && x != Parent(p)
    ensures var e := Added(d, names[Parent(p)], p[|p| - 1], i, s);
      FS.Entry(Now(e[names[x]]), m) == Resolved(names[p := i], x + [m])
  {
    assert Parent(x + [m]) == x;
    assert FS.Entry(Now(d[names[x]]), m) == Resolved(names, x + [m]);
  }

  lemma SeenAdded(d: Disk, top: Inode, names: Names, p: Path, i: Inode, s: Stored)
    requires Room(d, top, names, p, i)
    ensures Seen(Added(d, names[Parent(p)], p[|p| - 1], i, s), names[p := i]) == Seen(d, names)[p := Visible(s)]
  {
  }

  /** Another node at the same name, with the same entries. */
  lemma ReplaceLinked(d: Disk, top: Inode, names: Names, p: Path, s: Stored)
    requires Linked(d, top, names) && p in names && Sane(s) && Now(s) == Now(d[names[p]])
    ensures Linked(d[names[p] := s], top, names)
    ensures Seen(d[names[p] := s], names) == Seen(d, names)[p := Visible(s)]
  {
  }

  /** A change elsewhere. */
  lemma ElsewhereLinked(d: Disk, e: Disk, top: Inode, names: Names)
    requires Linked(d, top, names) && forall p :: p in names ==> names[p] in e && e[names[p]] == d[names[p]]
    ensures Linked(e, top, names) && Seen(e, names) == Seen(d, names)
  {
  }
}
