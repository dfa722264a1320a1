/**
 Writing one file outside a repository so that its name never reads as a part of the new content:
 a temporary sibling, a content sync, a rename, a directory sync.
 */
module DurableOutput {
  import opened Bytes
  import opened FileSystem

  function Concat(chunks: seq<seq<Byte>>): seq<Byte> {
    if chunks == [] then [] else Concat(chunks[..|chunks| - 1]) + chunks[|chunks| - 1]
  }

  /** The files that were there keep their content and how durable it is. */
  ghost predicate KeepsFiles(d0: Disk, d: Disk) {
    forall i :: i in d0.data ==> i in d.data && d.data[i] == d0.data[i] && (i in d.synced <==> i in d0.synced)
  }

  /** A version of the directory that differs from what programs saw in `d0` at most at `dest` and `temp`. */
  ghost predicate Version(d0: Disk, d: Disk, m: Entries, dest: Name, temp: Name, bytes: seq<Byte>)
    requires |d0.dirs| >= 1
  {
    || m in d0.dirs
    || (&& (forall n :: n != dest && n != temp ==> Entry(m, n) == Entry(Current(d0), n))
        && (Entry(m, dest) == Entry(Current(d0), dest) || NewFile(d0, d, Entry(m, dest), bytes)))
  }

  /** The entry names a new file whose complete content is durable. */
  ghost predicate NewFile(d0: Disk, d: Disk, e: Option<Inode>, bytes: seq<Byte>) {
    e.Some? && e.value !in d0.data && e.value in d.synced && e.value in d.data && d.data[e.value] == bytes
  }

  /** Every state on the way. */
  ghost predicate InFlight(d0: Disk, d: Disk, dest: Name, temp: Name, bytes: seq<Byte>) {
    && WellFormed(d0) && WellFormed(d) && KeepsFiles(d0, d)
    && (forall k :: 0 <= k < |d.dirs| ==> Version(d0, d, d.dirs[k], dest, temp, bytes))
  }

  /** What a power loss may leave, on the way: the destination as before or complete, every other name as before. */
  lemma OldOrComplete(d0: Disk, d: Disk, dest: Name, temp: Name, bytes: seq<Byte>, n: Name, v: Option<seq<Byte>>)
    requires InFlight(d0, d, dest, temp, bytes) && n != temp && MayRead(d, n, v)
    ensures MayRead(d0, n, v) || (n == dest && v == Some(bytes))
  {
    var k :| 0 <= k < |d.dirs| && ReadsAs(d, d.dirs[k], n, v);
    var m := d.dirs[k];
    if m in d0.dirs {
      var j :| 0 <= j < |d0.dirs| && d0.dirs[j] == m;
      assert ReadsAs(d0, d0.dirs[j], n, v);
    } else if Entry(m, n) == Entry(Current(d0), n) {
      assert ReadsAs(d0, d0.dirs[|d0.dirs| - 1], n, v);
    }
  }

  /** Before the rename: no version differs from what programs saw but at `temp`, and no old file changed. */
  ghost predicate Pending(d0: Disk, d: Disk, temp: Name) {
    && WellFormed(d0) && WellFormed(d) && KeepsFiles(d0, d)
    && (forall k :: 0 <= k < |d.dirs| ==> d.dirs[k] in d0.dirs || SameBut(d0, d.dirs[k], temp))
    && SameBut(d0, Current(d), temp)
  }

  ghost predicate SameBut(d0: Disk, m: Entries, temp: Name)
    requires |d0.dirs| >= 1
  {
    forall n :: n != temp ==> Entry(m, n) == Entry(Current(d0), n)
  }

  /** An error before the rename: the destination reads as before, now and after any power loss. */
  lemma PendingUntouched(d0: Disk, d: Disk, temp: Name, n: Name, v: Option<seq<Byte>>)
    requires Pending(d0, d, temp) && n != temp
    ensures View(d, n) == View(d0, n)
    ensures MayRead(d, n, v) ==> MayRead(d0, n, v)
  {
    assert Entry(Current(d), n) == Entry(Current(d0), n);
    if MayRead(d, n, v) {
      var k :| 0 <= k < |d.dirs| && ReadsAs(d, d.dirs[k], n, v);
      if d.dirs[k] in d0.dirs {
        var j :| 0 <= j < |d0.dirs| && d0.dirs[j] == d.dirs[k];
        assert ReadsAs(d0, d0.dirs[j], n, v);
      } else {
        assert ReadsAs(d0, d0.dirs[|d0.dirs| - 1], n, v);
      }
    }
  }

  lemma PendingIsInFlight(d0: Disk, d: Disk, dest: Name, temp: Name, bytes: seq<Byte>)
    requires Pending(d0, d, temp) && dest != temp
    ensures InFlight(d0, d, dest, temp, bytes)
  {
    forall k | 0 <= k < |d.dirs| ensures Version(d0, d, d.dirs[k], dest, temp, bytes) {
      if d.dirs[k] !in d0.dirs { assert SameBut(d0, d.dirs[k], temp); }
    }
  }

  lemma StartsPending(d: Disk, temp: Name)
    requires WellFormed(d)
    ensures Pending(d, d, temp)
  {
  }

  lemma CreatedPending(d0: Disk, d: Disk, temp: Name, i: Inode)
    requires Pending(d0, d, temp) && i !in d.data
    ensures Pending(d0, Created(d, temp, i), temp)
  {
  }

  lemma WrittenPending(d0: Disk, d: Disk, temp: Name, i: Inode, bytes: seq<Byte>)
    requires Pending(d0, d, temp) && i in d.data && i !in d0.data
    ensures Pending(d0, Written(d, i, bytes), temp) && Pending(d0, Synced(d, i), temp)
  {
  }

  lemma RemovedPending(d0: Disk, d: Disk, temp: Name)
    requires Pending(d0, d, temp)
    ensures Pending(d0, Removed(d, temp), temp)
  {
  }

  /** The rename, and the directory sync after it. */
  lemma RenamedInFlight(d0: Disk, d: Disk, dest: Name, temp: Name, i: Inode)
    requires Pending(d0, d, temp) && dest != temp && temp in Current(d) && Current(d)[temp] == i
    requires i !in d0.data && i in d.synced
    ensures var moved := Renamed(d, temp, dest);
      && InFlight(d0, moved, dest, temp, d.data[i]) && InFlight(d0, DirectorySynced(moved), dest, temp, d.data[i])
  {
    var moved := Renamed(d, temp, dest);
    PendingIsInFlight(d0, d, dest, temp, d.data[i]);
    var m := Current(moved);
    assert Version(d0, moved, m, dest, temp, d.data[i]);
    forall k | 0 <= k < |moved.dirs| ensures Version(d0, moved, moved.dirs[k], dest, temp, d.data[i]) {
      if k < |d.dirs| {
        assert moved.dirs[k] == d.dirs[k];
        assert Version(d0, d, d.dirs[k], dest, temp, d.data[i]);
      }
    }
    assert WellFormed(moved);
    assert WellFormed(DirectorySynced(moved));
  }

  datatype Outcome = Stored | NotMoved | NotConfirmed

  ghost predicate Durable(d: Disk, n: Name, bytes: seq<Byte>)
    requires WellFormed(d)
  {
    View(d, n) == Some(bytes) && forall v :: MayRead(d, n, v) <==> v == Some(bytes)
  }

  ghost predicate AllPending(history: seq<Disk>, d0: Disk, temp: Name) {
    forall d :: d in history ==> Pending(d0, d, temp)
  }

  /** The temporary file `i` is the only thing that is new, and it holds `bytes`. */
  ghost predicate Filled(d0: Disk, d: Disk, temp: Name, i: Inode, bytes: seq<Byte>) {
    && Pending(d0, d, temp) && i in d.data && i !in d0.data && d.data[i] == bytes
    && temp in Current(d) && Current(d)[temp] == i
  }

  /** One `write`; part of it may land when it fails. */
  method WriteChunk(vol: Volume, temp: Name, i: Inode, chunk: seq<Byte>, ghost d0: Disk, ghost bytes: seq<Byte>)
    returns (ok: bool)
    requires vol.Valid() && AllPending(vol.history, d0, temp) && Filled(d0, vol.disk, temp, i, bytes)
    modifies vol
    ensures vol.Valid() && AllPending(vol.history, d0, temp)
    ensures ok ==> Filled(d0, vol.disk, temp, i, bytes + chunk)
    ensures temp in Current(vol.disk)
    ensures old(vol.Smooth()) ==> ok && vol.Smooth()
    ensures old(vol.OneFault()) ==> vol.OneFault() && (!ok ==> vol.Smooth())
  {
    ghost var before := vol.disk;
    ok := vol.Write(i, chunk);
    ghost var k :| 0 <= k <= |chunk| && vol.disk == Written(before, i, chunk[..k]);
    WrittenPending(d0, before, temp, i, chunk[..k]);
  }

  /** `write_new_file_durably_streaming` up to the rename: create, fill and sync the temporary file. */
  method FillTemporary(vol: Volume, temp: Name, chunks: seq<seq<Byte>>, ghost d0: Disk)
    returns (ok: bool, ghost i: Inode)
    requires vol.Valid() && vol.history == [vol.disk] && vol.disk == d0
    modifies vol
    ensures vol.Valid() && AllPending(vol.history, d0, temp)
    ensures ok ==> temp !in Current(d0) && i in vol.disk.synced && Filled(d0, vol.disk, temp, i, Concat(chunks))
    ensures old(vol.Smooth()) ==> vol.Smooth() && (ok <==> temp !in Current(d0))
    ensures old(vol.OneFault()) ==> vol.OneFault() && (!ok && temp !in Current(d0) ==> vol.Smooth())
  {
    hide vol.Smooth, vol.OneFault, Pending;
    StartsPending(d0, temp);
    var created, file := vol.CreateNew(temp);
    i := file;
    if !created {
      return false, i;
    }
    CreatedPending(d0, d0, temp, i);
    assert chunks[..0] == [];
    for j := 0 to |chunks|
      invariant vol.Valid() && AllPending(vol.history, d0, temp)
      invariant Filled(d0, vol.disk, temp, i, Concat(chunks[..j]))
      invariant (old(vol.Smooth()) ==> vol.Smooth()) && (old(vol.OneFault()) ==> vol.OneFault())
    {
      assert chunks[..j + 1][..j] == chunks[..j] && chunks[..j + 1][j] == chunks[j];
      ok := WriteChunk(vol, temp, file, chunks[j], d0, Concat(chunks[..j]));
      if !ok {
        return false, i;
      }
    }
    assert chunks[..|chunks|] == chunks;
    WrittenPending(d0, vol.disk, temp, i, []);
    ok := vol.SyncFile(file);
  }

  /** An error before the rename: the temporary file is removed, if it can be. */
  method GiveUp(vol: Volume, dest: Name, temp: Name, ghost d0: Disk, ghost bytes: seq<Byte>) returns (cleaned: bool)
    requires vol.Valid() && AllPending(vol.history, d0, temp) && dest != temp
    modifies vol
    ensures vol.Valid() && AllPending(vol.history, d0, temp)
    ensures forall d :: d in vol.history ==> InFlight(d0, d, dest, temp, bytes)
    ensures cleaned || old(vol.Smooth()) ==> temp !in Current(vol.disk)
  {
    hide Pending, InFlight;
    assert vol.disk in vol.history;
    RemovedPending(d0, vol.disk, temp);
    cleaned := vol.Remove(temp);
    forall d | d in vol.history ensures InFlight(d0, d, dest, temp, bytes) {
      PendingIsInFlight(d0, d, dest, temp, bytes);
    }
  }

  /** `write_new_file_durably_streaming`; `write_new_file_durably` is the case of one chunk. */
  method StoreDurably(vol: Volume, dest: Name, temp: Name, chunks: seq<seq<Byte>>) returns (r: Outcome, cleaned: bool)
    requires vol.Valid() && vol.history == [vol.disk] && dest != temp
    modifies vol
    ensures vol.Valid() && forall d :: d in vol.history ==> InFlight(old(vol.disk), d, dest, temp, Concat(chunks))
    ensures r == NotMoved ==> AllPending(vol.history, old(vol.disk), temp)
    ensures r == NotConfirmed ==> View(vol.disk, dest) == Some(Concat(chunks))
    ensures r == Stored ==> Durable(vol.disk, dest, Concat(chunks))
    ensures cleaned || r != NotMoved ==> temp !in Current(vol.disk)
    ensures temp in Current(old(vol.disk)) ==> r == NotMoved
    ensures old(vol.Smooth()) ==> r == if temp in Current(old(vol.disk)) then NotMoved else Stored
    ensures old(vol.OneFault()) && temp !in Current(old(vol.disk)) ==> temp !in Current(vol.disk)
  {
    ghost var d0 := vol.disk;
    var ok;
    ghost var i;
    ok, i := FillTemporary(vol, temp, chunks, d0);
    ghost var filled := vol.disk;
    assert filled in vol.history;
    if ok {
      RenamedInFlight(d0, filled, dest, temp, i);
      ok := vol.Rename(temp, dest);
    }
    if !ok {
      cleaned := GiveUp(vol, dest, temp, d0, Concat(chunks));
      return NotMoved, cleaned;
    }
    forall d | d in vol.history ensures InFlight(d0, d, dest, temp, Concat(chunks)) {
      if d != vol.disk { PendingIsInFlight(d0, d, dest, temp, Concat(chunks)); }
    }
    ok := vol.SyncDirectory();
    if !ok {
      return NotConfirmed, true;
    }
    SyncedIsDurable(vol.disk, dest, i);
    r, cleaned := Stored, true;
  }

  lemma SyncedIsDurable(d: Disk, n: Name, i: Inode)
    requires WellFormed(d) && |d.dirs| == 1 && n in Current(d) && Current(d)[n] == i && i in d.synced
    ensures Durable(d, n, d.data[i])
  {
    assert ReadsAs(d, d.dirs[0], n, Some(d.data[i]));
  }
}
