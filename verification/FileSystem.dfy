/**
 A directory of files with separate volatile and durable views, and what a power loss may leave of it.

 A file's content is durable once it is synced; a directory entry is durable once the directory is
 synced. Until then a power loss may keep or lose each entry change on its own, and may leave any bytes
 in a file that was not synced.
 */
module FileSystem {
  import opened Bytes

  type Name = string
  type Inode = nat
  type Entries = map<Name, Inode>

  /** `dirs` holds the directory as last synced, then every version since; the last one is what programs see. */
  datatype Disk = Disk(dirs: seq<Entries>, data: map<Inode, seq<Byte>>, synced: set<Inode>)

  ghost predicate WellFormed(d: Disk) {
    && |d.dirs| >= 1
    && (forall k, n :: 0 <= k < |d.dirs| && n in d.dirs[k] ==> d.dirs[k][n] in d.data)
    && (forall i :: i in d.synced ==> i in d.data)
  }

  function Current(d: Disk): Entries
    requires |d.dirs| >= 1
  {
    d.dirs[|d.dirs| - 1]
  }

  function Entry(m: Entries, n: Name): Option<Inode> {
    if n in m then Some(m[n]) else None
  }

  /** What a program reading `n` sees now. */
  function View(d: Disk, n: Name): Option<seq<Byte>>
    requires WellFormed(d)
  {
    if n in Current(d) then Some(d.data[Current(d)[n]]) else None
  }

  // ----- power loss -----

  /** `c` is a disk that a power loss may leave of `d`: each name old or new, unsynced content arbitrary. */
  ghost predicate LossOf(d: Disk, c: Disk)
    requires WellFormed(d)
  {
    && WellFormed(c) && |c.dirs| == 1
    && (forall n :: exists k :: 0 <= k < |d.dirs| && Entry(c.dirs[0], n) == Entry(d.dirs[k], n))
    && (forall i :: i in d.synced ==> i in c.data && c.data[i] == d.data[i])
  }

  /** What `n` may read as after a power loss. */
  ghost predicate MayRead(d: Disk, n: Name, v: Option<seq<Byte>>)
    requires WellFormed(d)
  {
    exists k :: 0 <= k < |d.dirs| && ReadsAs(d, d.dirs[k], n, v)
  }

  ghost predicate ReadsAs(d: Disk, m: Entries, n: Name, v: Option<seq<Byte>>)
  {
    match Entry(m, n)
    case None => v == None
    case Some(i) => v.Some? && (i in d.synced ==> i in d.data && v.value == d.data[i])
  }

  /** `MayRead` is exactly what power loss allows. */
  lemma LossViews(d: Disk, n: Name, v: Option<seq<Byte>>)
    requires WellFormed(d)
    ensures MayRead(d, n, v) <==> exists c :: LossOf(d, c) && View(c, n) == v
  {
    if MayRead(d, n, v) {
      var c := LossReading(d, n, v);
    }
    forall c | LossOf(d, c) && View(c, n) == v ensures MayRead(d, n, v) {
      var k :| 0 <= k < |d.dirs| && Entry(c.dirs[0], n) == Entry(d.dirs[k], n);
      assert ReadsAs(d, d.dirs[k], n, v);
    }
  }

  lemma LossReading(d: Disk, n: Name, v: Option<seq<Byte>>) returns (c: Disk)
    requires WellFormed(d) && MayRead(d, n, v)
    ensures LossOf(d, c) && View(c, n) == v
  {
    var k :| 0 <= k < |d.dirs| && ReadsAs(d, d.dirs[k], n, v);
    var m := d.dirs[k];
    var data := if v.Some? then d.data[m[n] := v.value] else d.data;
    c := Disk([m], data, {});
    assert WellFormed(c) by {
      assert forall x :: x in m ==> d.dirs[k][x] in d.data;
    }
    forall x ensures exists j :: 0 <= j < |d.dirs| && Entry(c.dirs[0], x) == Entry(d.dirs[j], x) {
      assert Entry(c.dirs[0], x) == Entry(d.dirs[k], x);
    }
  }

  // ----- the operations -----

  function Created(d: Disk, n: Name, i: Inode): Disk
    requires |d.dirs| >= 1
  {
    Disk(d.dirs + [Current(d)[n := i]], d.data[i := []], d.synced - {i})
  }

  function Written(d: Disk, i: Inode, bytes: seq<Byte>): Disk
    requires i in d.data
  {
    d.(data := d.data[i := d.data[i] + bytes], synced := d.synced - {i})
  }

  function Synced(d: Disk, i: Inode): Disk {
    d.(synced := d.synced + {i})
  }

  function Renamed(d: Disk, a: Name, b: Name): Disk
    requires |d.dirs| >= 1 && a in Current(d)
  {
    d.(dirs := d.dirs + [(Current(d) - {a})[b := Current(d)[a]]])
  }

  function Removed(d: Disk, n: Name): Disk
    requires |d.dirs| >= 1
  {
    d.(dirs := d.dirs + [Current(d) - {n}])
  }

  function DirectorySynced(d: Disk): Disk
    requires |d.dirs| >= 1
  {
    d.(dirs := [Current(d)])
  }

  method FreshInode(taken: set<Inode>) returns (i: Inode)
    ensures i !in taken
  {
    i := 0;
    var left := taken;
    while left != {}
      invariant forall j :: j in taken && j !in left ==> j < i
      decreases |left|
    {
      var j :| j in left;
      left := left - {j};
      i := if j < i then i else j + 1;
    }
  }

  class Volume {
    var disk: Disk
    /** Whether each operation from now on succeeds; operations past the end succeed. */
    var fates: seq<bool>
    /** Every disk state so far. */
    var history: seq<Disk>

    constructor (disk: Disk, fates: seq<bool>)
      requires WellFormed(disk)
      ensures Valid() && this.disk == disk && this.fates == fates && history == [disk]
    {
      this.disk := disk;
      this.fates := fates;
      history := [disk];
    }

    ghost predicate Valid()
      reads this
    {
      WellFormed(disk) && history != [] && history[|history| - 1] == disk
    }

    /** No operation from now on fails of itself. */
    ghost predicate Smooth()
      reads this`fates
    {
      forall i :: 0 <= i < |fates| ==> fates[i]
    }

    /** At most one operation from now on fails of itself. */
    ghost predicate OneFault()
      reads this`fates
    {
      forall i, j :: 0 <= i < j < |fates| ==> fates[i] || fates[j]
    }

    method NextFate() returns (ok: bool)
      modifies this`fates
      ensures old(Smooth()) ==> ok && Smooth()
      ensures old(OneFault()) ==> OneFault() && (!ok ==> Smooth())
    {
      if fates == [] {
        return true;
      }
      ok := fates[0];
      fates := fates[1..];
    }

    method Become(next: Disk)
      requires WellFormed(next)
      modifies this`disk, this`history
      ensures Valid() && disk == next && history == old(history) + [next]
    {
      disk := next;
      history := history + [next];
    }

    /** Create a file that must not exist yet. */
    method CreateNew(n: Name) returns (ok: bool, i: Inode)
      requires Valid()
      modifies this
      ensures Valid()
      ensures ok ==> i !in old(disk).data && n !in Current(old(disk))
                     && disk == Created(old(disk), n, i) && history == old(history) + [disk]
      ensures !ok ==> disk == old(disk) && history == old(history)
      ensures old(Smooth()) ==> Smooth() && (ok <==> n !in Current(old(disk)))
      ensures old(OneFault()) ==> OneFault() && (!ok && n !in Current(old(disk)) ==> Smooth())
    {
      var fate := NextFate();
      if !fate || n in Current(disk) {
        return false, 0;
      }
      i := FreshInode(disk.data.Keys);
      Become(Created(disk, n, i));
      ok := true;
    }

    /** Append to an open file. A failed write may have written a part. */
    method Write(i: Inode, bytes: seq<Byte>) returns (ok: bool)
      requires Valid() && i in disk.data
      modifies this
      ensures Valid() && history == old(history) + [disk]
      ensures exists k :: 0 <= k <= |bytes| && disk == Written(old(disk), i, bytes[..k])
      ensures ok ==> disk == Written(old(disk), i, bytes)
      ensures old(Smooth()) ==> ok && Smooth()
      ensures old(OneFault()) ==> OneFault() && (!ok ==> Smooth())
    {
      ok := NextFate();
      var k: nat := |bytes|;
      if !ok {
        k :| 0 <= k <= |bytes|;
      }
      assert bytes[..|bytes|] == bytes;
      Become(Written(disk, i, bytes[..k]));
    }

    method SyncFile(i: Inode) returns (ok: bool)
      requires Valid() && i in disk.data
      modifies this
      ensures Valid()
      ensures disk == if ok then Synced(old(disk), i) else old(disk)
      ensures history == if ok then old(history) + [disk] else old(history)
      ensures old(Smooth()) ==> ok && Smooth()
      ensures old(OneFault()) ==> OneFault() && (!ok ==> Smooth())
    {
      ok := NextFate();
      if ok {
        Become(Synced(disk, i));
      }
    }

    method Rename(a: Name, b: Name) returns (ok: bool)
      requires Valid() && a in Current(disk)
      modifies this
      ensures Valid()
      ensures disk == if ok then Renamed(old(disk), a, b) else old(disk)
      ensures history == if ok then old(history) + [disk] else old(history)
      ensures old(Smooth()) ==> ok && Smooth()
      ensures old(OneFault()) ==> OneFault() && (!ok ==> Smooth())
    {
      ok := NextFate();
      if ok {
        Become(Renamed(disk, a, b));
      }
    }

    method Remove(n: Name) returns (ok: bool)
      requires Valid()
      modifies this
      ensures Valid()
      ensures disk == if ok then Removed(old(disk), n) else old(disk)
      ensures history == if ok then old(history) + [disk] else old(history)
      ensures ok ==> n in Current(old(disk))
      ensures old(Smooth()) ==> Smooth() && (ok <==> n in Current(old(disk)))
    {
      var fate := NextFate();
      if !fate || n !in Current(disk) {
        return false;
      }
      Become(Removed(disk, n));
      ok := true;
    }

    method SyncDirectory() returns (ok: bool)
      requires Valid()
      modifies this
      ensures Valid()
      ensures disk == if ok then DirectorySynced(old(disk)) else old(disk)
      ensures history == if ok then old(history) + [disk] else old(history)
      ensures old(Smooth()) ==> ok && Smooth()
      ensures old(OneFault()) ==> OneFault() && (!ok ==> Smooth())
    {
      ok := NextFate();
      if ok {
        Become(DirectorySynced(disk));
      }
    }
  }
}
