/**
 `extract`: writing a whole tree beside its target, making every part of it durable from the leaves up, and
 moving it into place at once, so that no power loss can leave a part of it at the target.
 */
module Extract {
  import opened Bytes
  import opened FileTree
  import FS = FileSystem

  // ----- syncing the directories of a tree -----

  /** Every node's parent is a directory. */
  ghost predicate Rooted(t: Tree) {
    && [] in t && t[[]].Dir?
    && (forall p {:trigger Parent(p)} :: p in t && p != [] ==> Parent(p) in t && t[Parent(p)].Dir?)
  }

  ghost predicate IsDir(t: Tree, p: Path) {
    p in t && t[p].Dir?
  }

  /** `read_dir`: the entries of a directory, each once, in no particular order. */
  method ReadDir(t: Tree, dir: Path) returns (entries: seq<Path>)
    ensures forall p :: p in entries <==> p in t && |p| == |dir| + 1 && dir < p
    ensures Distinct(entries)
  {
    entries := [];
    var left := t.Keys;
    while left != {}
      invariant left <= t.Keys
      invariant forall p :: p in entries <==> p in t && p !in left && |p| == |dir| + 1 && dir < p
      invariant Distinct(entries)
      decreases |left|
    {
      var p :| p in left;
      left := left - {p};
      if |p| == |dir| + 1 && dir < p {
        entries := entries + [p];
      }
    }
  }

  ghost predicate Distinct(s: seq<Path>) {
    forall i, j :: 0 <= i < j < |s| ==> s[i] != s[j]
  }

  /** `found` splits into the directories already read and those on the stack; each one's parent was read. */
  ghost predicate Split(t: Tree, found: seq<Path>, stack: seq<Path>, seen: set<Path>) {
    && Distinct(found) && Distinct(stack)
    && (forall p :: p in found <==> p in seen || p in stack)
    && (forall p :: p in stack ==> p !in seen)
    && (forall p :: p in found ==> IsDir(t, p) && (p == [] || Parent(p) in seen))
  }

  /** Every directory is found, or has one of its ancestors on the stack. */
  ghost predicate Covering(t: Tree, found: seq<Path>, stack: seq<Path>) {
    forall p :: IsDir(t, p) ==> p in found || exists q :: q in stack && q < p
  }

  ghost predicate Walking(t: Tree, found: seq<Path>, stack: seq<Path>, seen: set<Path>) {
    Split(t, found, stack, seen) && Covering(t, found, stack)
  }

  /** The directories among the children of `d`, each once. */
  ghost predicate Subdirectories(t: Tree, d: Path, kids: seq<Path>) {
    && Distinct(kids)
    && (forall p :: p in kids <==> p in t && t[p].Dir? && |p| == |d| + 1 && d < p)
  }

  method ReadSubdirectories(t: Tree, d: Path) returns (kids: seq<Path>)
    ensures Subdirectories(t, d, kids)
  {
    var entries := ReadDir(t, d);
    kids := [];
    for i := 0 to |entries|
      invariant Distinct(kids)
      invariant forall p :: p in kids <==> p in entries[..i] && t[p].Dir?
    {
      assert entries[..i + 1] == entries[..i] + [entries[i]];
      if t[entries[i]].Dir? {
        assert entries[i] !in entries[..i];
        kids := kids + [entries[i]];
      }
    }
    assert entries[..|entries|] == entries;
  }

  lemma DistinctAppend(a: seq<Path>, b: seq<Path>)
    requires Distinct(a) && Distinct(b) && forall p :: p in a ==> p !in b
    ensures Distinct(a + b)
  {
    var c := a + b;
    forall i, j | 0 <= i < j < |c| ensures c[i] != c[j] {
      if i < |a| <= j { assert c[i] in a && c[j] in b; }
    }
  }

  lemma DistinctFront(a: seq<Path>, d: Path)
    requires Distinct(a + [d])
    ensures Distinct(a) && d !in a
  {
    var c := a + [d];
    assert forall k :: 0 <= k < |a| ==> c[k] == a[k];
    assert c[|a|] == d;
  }

  /** The subdirectories of a directory that was not read yet are all new. */
  lemma KidsAreNew(t: Tree, found: seq<Path>, rest: seq<Path>, d: Path, kids: seq<Path>, seen: set<Path>)
    requires Split(t, found, rest + [d], seen) && Subdirectories(t, d, kids)
    ensures forall p :: p in kids ==> p !in found
  {
    assert d in rest + [d];
    forall p | p in kids ensures p !in found {
      assert Parent(p) == d;
    }
  }

  lemma WalkDistinct(t: Tree, found: seq<Path>, rest: seq<Path>, d: Path, kids: seq<Path>, seen: set<Path>)
    requires Split(t, found, rest + [d], seen) && Subdirectories(t, d, kids)
    ensures Distinct(found + kids) && Distinct(rest + kids) && d !in rest
  {
    KidsAreNew(t, found, rest, d, kids, seen);
    DistinctFront(rest, d);
    DistinctAppend(found, kids);
    assert forall p :: p in rest ==> p in rest + [d];
    DistinctAppend(rest, kids);
  }

  /** Every directory not yet found still has one of its ancestors on the stack. */
  lemma WalkCovers(t: Tree, found: seq<Path>, rest: seq<Path>, d: Path, kids: seq<Path>, p: Path)
    requires Rooted(t) && Covering(t, found, rest + [d]) && Subdirectories(t, d, kids)
    requires IsDir(t, p) && p !in found && p !in kids
    ensures exists q :: q in rest + kids && q < p
  {
    var q :| q in rest + [d] && q < p;
    if q == d {
      var c := p[..|d| + 1];
      AncestorIsDir(t, p, |d| + 1);
      assert c in kids && c in rest + kids && c < p;
    } else {
      assert q in rest + kids;
    }
  }

  lemma {:induction false} AncestorIsDir(t: Tree, p: Path, k: nat)
    requires Rooted(t) && p in t && k <= |p| && (k == |p| ==> t[p].Dir?)
    ensures IsDir(t, p[..k])
    decreases |p|
  {
    if k < |p| {
      var parent := Parent(p);
      AncestorIsDir(t, parent, k);
      assert parent[..k] == p[..k];
    } else {
      assert p[..k] == p;
    }
  }

  lemma WalkSplit(t: Tree, found: seq<Path>, rest: seq<Path>, d: Path, kids: seq<Path>, seen: set<Path>)
    requires Split(t, found, rest + [d], seen) && Subdirectories(t, d, kids)
    ensures Split(t, found + kids, rest + kids, seen + {d})
    ensures d !in seen && IsDir(t, d)
  {
    assert d in rest + [d];
    KidsAreNew(t, found, rest, d, kids, seen);
    WalkDistinct(t, found, rest, d, kids, seen);
    forall p | p in kids ensures Parent(p) == d && p != d {
    }
    forall p | p in rest + kids ensures p !in seen + {d} {
      if p in rest { assert p in rest + [d]; }
    }
    forall p ensures p in found + kids <==> p in seen + {d} || p in rest + kids {
      assert p in rest + [d] <==> p in rest || p == d;
    }
  }

  lemma WalkStep(t: Tree, found: seq<Path>, rest: seq<Path>, d: Path, kids: seq<Path>, seen: set<Path>)
    requires Rooted(t) && Walking(t, found, rest + [d], seen) && Subdirectories(t, d, kids)
    ensures Walking(t, found + kids, rest + kids, seen + {d})
    ensures d !in seen && IsDir(t, d)
  {
    WalkSplit(t, found, rest, d, kids, seen);
    forall p | IsDir(t, p) ensures p in found + kids || exists q :: q in rest + kids && q < p {
      if p !in found && p !in kids { WalkCovers(t, found, rest, d, kids, p); }
    }
  }

  lemma WalkStart(t: Tree)
    requires Rooted(t)
    ensures Walking(t, [[]], [[]], {})
  {
    var root: Path := [];
    forall p | IsDir(t, p) ensures p in [root] || exists q :: q in [root] && q < p {
      if p != root { assert root in [root] && root < p; }
    }
  }

  lemma WalkEnd(t: Tree, found: seq<Path>, seen: set<Path>)
    requires Walking(t, found, [], seen)
    ensures Distinct(found) && forall p :: p in found <==> IsDir(t, p)
  {
  }

  /** One turn of the walk: pop a directory, find its subdirectories, push them. */
  method Visit(t: Tree, found: seq<Path>, stack: seq<Path>, ghost seen: set<Path>)
    returns (found': seq<Path>, stack': seq<Path>, ghost d: Path)
    requires Rooted(t) && stack != [] && Walking(t, found, stack, seen)
    ensures d == stack[|stack| - 1] && d !in seen && IsDir(t, d) && Walking(t, found', stack', seen + {d})
  {
    var rest, top := stack[..|stack| - 1], stack[|stack| - 1];
    assert stack == rest + [top];
    var kids := ReadSubdirectories(t, top);
    WalkStep(t, found, rest, top, kids, seen);
    found', stack', d := found + kids, rest + kids, top;
  }

  /** The stack walk of `sync_tree_directories`: it ends, with every directory found exactly once. */
  method CollectDirectories(t: Tree) returns (found: seq<Path>)
    requires Rooted(t)
    ensures Distinct(found)
    ensures forall p :: p in found <==> IsDir(t, p)
  {
    found := [[]];
    var stack: seq<Path> := [[]];
    ghost var seen: set<Path> := {};
    ghost var unread := set p | p in t && IsDir(t, p);
    WalkStart(t);
    while stack != []
      invariant Walking(t, found, stack, seen)
      invariant unread == set p | p in t && IsDir(t, p) && p !in seen
      decreases unread
    {
      ghost var d;
      found, stack, d := Visit(t, found, stack, seen);
      seen := seen + {d};
      unread := unread - {d};
    }
    WalkEnd(t, found, seen);
  }

  ghost predicate DeepestFirst(s: seq<Path>) {
    forall i, j :: 0 <= i < j < |s| ==> |s[i]| >= |s[j]|
  }

  /** `sort_by_key` on the reversed depth. */
  method SortDeepestFirst(paths: seq<Path>) returns (s: seq<Path>)
    requires Distinct(paths)
    ensures DeepestFirst(s) && Distinct(s) && |s| == |paths|
    ensures forall p :: p in s <==> p in paths
  {
    s := [];
    for i := 0 to |paths|
      invariant DeepestFirst(s) && Distinct(s) && |s| == i
      invariant forall p :: p in s <==> p in paths[..i]
    {
      var p := paths[i];
      assert paths[..i + 1] == paths[..i] + [p];
      assert p !in paths[..i];
      var k := |s|;
      while k > 0 && |s[k - 1]| < |p|
        invariant 0 <= k <= |s|
        invariant forall j :: k <= j < |s| ==> |s[j]| < |p|
      {
        k := k - 1;
      }
      InsertDistinct(s, k, p);
      InsertDeepest(s, k, p);
      forall q ensures q in Inserted(s, k, p) <==> q in s || q == p {
        InsertMembers(s, k, p, q);
      }
      s := Inserted(s, k, p);
    }
    assert paths[..|paths|] == paths;
  }

  function Inserted(s: seq<Path>, k: nat, p: Path): (r: seq<Path>)
    requires k <= |s|
    ensures |r| == |s| + 1
    ensures forall j :: 0 <= j < |r| ==> r[j] == if j < k then s[j] else if j == k then p else s[j - 1]
  {
    s[..k] + [p] + s[k..]
  }

  lemma InsertMembers(s: seq<Path>, k: nat, p: Path, q: Path)
    requires k <= |s|
    ensures q in Inserted(s, k, p) <==> q in s || q == p
  {
    assert s == s[..k] + s[k..];
  }

  lemma InsertDistinct(s: seq<Path>, k: nat, p: Path)
    requires Distinct(s) && p !in s && k <= |s|
    ensures Distinct(Inserted(s, k, p))
  {
    assert forall j :: 0 <= j < |s| ==> s[j] != p;
  }

  lemma InsertDeepest(s: seq<Path>, k: nat, p: Path)
    requires DeepestFirst(s) && k <= |s|
    requires k > 0 ==> |s[k - 1]| >= |p|
    requires forall j :: k <= j < |s| ==> |s[j]| < |p|
    ensures DeepestFirst(Inserted(s, k, p))
  {
    assert forall j :: 0 <= j < k ==> |s[j]| >= |s[k - 1]|;
  }

  /** Every directory of `t` once, and only after all of its descendants. */
  ghost predicate LeavesFirst(t: Tree, order: seq<Path>) {
    && Distinct(order) && (forall p :: p in order <==> IsDir(t, p))
    && (forall i, j :: 0 <= i < j < |order| ==> !(order[i] < order[j]))
  }

  /** The order in which `sync_tree_directories` syncs. */
  method SyncOrder(t: Tree) returns (order: seq<Path>)
    requires Rooted(t)
    ensures LeavesFirst(t, order)
  {
    var found := CollectDirectories(t);
    order := SortDeepestFirst(found);
  }

  // ----- the plan and its totals -----

  datatype Content = Bytes(bytes: seq<Byte>) | Blob(id: nat)
  datatype PlanEntry = PlanEntry(path: Path, content: Content, mode: nat)

  /** One snapshot of the object store: it answers the same for a blob each time. */
  type Blobs = nat -> Option<seq<Byte>>

  const U64 := U64_MAX + 1

  function ContentOf(blobs: Blobs, e: PlanEntry): Option<seq<Byte>> {
    match e.content
    case Bytes(bytes) => Some(bytes)
    case Blob(id) => blobs(id)
  }

  predicate Readable(blobs: Blobs, plan: seq<PlanEntry>) {
    forall i :: 0 <= i < |plan| ==> ContentOf(blobs, plan[i]).Some?
  }

  function Total(blobs: Blobs, plan: seq<PlanEntry>): nat
    requires Readable(blobs, plan)
  {
    if plan == [] then 0
    else Total(blobs, plan[..|plan| - 1]) + |ContentOf(blobs, plan[|plan| - 1]).value|
  }

  /** The sum as the loops keep it, in 64 bits. */
  function WrappedTotal(blobs: Blobs, plan: seq<PlanEntry>): nat
    requires Readable(blobs, plan)
  {
    if plan == [] then 0
    else (WrappedTotal(blobs, plan[..|plan| - 1]) + |ContentOf(blobs, plan[|plan| - 1]).value|) % U64
  }

  lemma {:induction false} WrappedIsTotal(blobs: Blobs, plan: seq<PlanEntry>)
    requires Readable(blobs, plan)
    ensures WrappedTotal(blobs, plan) == Total(blobs, plan) % U64
  {
    if plan != [] {
      WrappedIsTotal(blobs, plan[..|plan| - 1]);
      AddModulo(Total(blobs, plan[..|plan| - 1]), |ContentOf(blobs, plan[|plan| - 1]).value|);
    }
  }

  lemma AddModulo(a: nat, b: nat)
    ensures (a + b) % U64 == (a % U64 + b) % U64
  {
  }

  lemma WrappedStep(blobs: Blobs, plan: seq<PlanEntry>, i: nat)
    requires i < |plan| && Readable(blobs, plan[..i]) && ContentOf(blobs, plan[i]).Some?
    ensures Readable(blobs, plan[..i + 1])
    ensures WrappedTotal(blobs, plan[..i + 1])
         == (WrappedTotal(blobs, plan[..i]) + |ContentOf(blobs, plan[i]).value|) % U64
  {
    var front := plan[..i + 1];
    assert front[..i] == plan[..i] && front[i] == plan[i];
    assert forall j :: 0 <= j < i ==> front[j] == plan[..i][j];
  }

  /** `n` is the largest length among the first `k` entries, and 0 when there are none. */
  ghost predicate IsLargest(blobs: Blobs, plan: seq<PlanEntry>, k: nat, n: nat)
    requires k <= |plan| && Readable(blobs, plan[..k])
  {
    && (forall i :: 0 <= i < k ==> |ContentOf(blobs, plan[..k][i]).value| <= n)
    && (if k == 0 then n == 0 else exists i :: 0 <= i < k && |ContentOf(blobs, plan[..k][i]).value| == n)
  }

  lemma LargerOfTwo(blobs: Blobs, plan: seq<PlanEntry>, k: nat, n: nat, len: nat)
    requires k < |plan| && Readable(blobs, plan[..k]) && Readable(blobs, plan[..k + 1])
    requires IsLargest(blobs, plan, k, n) && len == |ContentOf(blobs, plan[..k + 1][k]).value|
    ensures IsLargest(blobs, plan, k + 1, if len > n then len else n)
  {
    assert forall i :: 0 <= i < k ==> plan[..k][i] == plan[..k + 1][i];
    if len <= n && k > 0 {
      var i :| 0 <= i < k && |ContentOf(blobs, plan[..k][i]).value| == n;
      assert |ContentOf(blobs, plan[..k + 1][i]).value| == n;
    }
  }

  /** `plan_summary`: the count, the sum of the lengths in 64 bits, and the largest length. */
  method PlanSummary(blobs: Blobs, plan: seq<PlanEntry>) returns (r: Option<(nat, nat, nat)>)
    ensures r.Some? <==> Readable(blobs, plan)
    ensures r.Some? ==> r.value.0 == |plan| && r.value.1 == Total(blobs, plan) % U64
    ensures r.Some? ==> plan[..|plan|] == plan && IsLargest(blobs, plan, |plan|, r.value.2)
  {
    var total: nat, largest: nat := 0, 0;
    for i := 0 to |plan|
      invariant Readable(blobs, plan[..i]) && total == WrappedTotal(blobs, plan[..i])
      invariant IsLargest(blobs, plan, i, largest)
    {
      var content := ContentOf(blobs, plan[i]);
      if content.None? {
        return None;
      }
      WrappedStep(blobs, plan, i);
      LargerOfTwo(blobs, plan, i, largest, |content.value|);
      total := (total + |content.value|) % U64;
      largest := if |content.value| > largest then |content.value| else largest;
    }
    assert plan[..|plan|] == plan;
    WrappedIsTotal(blobs, plan);
    r := Some((|plan|, total, largest));
  }

  /**
   The plan can be summed up where that is asked for, to be reported or to be limited, and its count and its
   total in 64 bits are within the limits.
   */
  ghost predicate Fits(blobs: Blobs, plan: seq<PlanEntry>, report: bool, maxFiles: Option<nat>, maxBytes: Option<nat>) {
    && (report || maxFiles.Some? || maxBytes.Some? ==> Readable(blobs, plan))
    && (maxFiles.Some? ==> |plan| <= maxFiles.value)
    && (maxBytes.Some? ==> Total(blobs, plan) % U64 <= maxBytes.value)
  }

  // ----- the tree of a plan -----

  /** The tree holds the planned files, bytes and modes, and no other node but their ancestors. */
  ghost predicate Built(t: Tree, blobs: Blobs, plan: seq<PlanEntry>) {
    && Rooted(t) && Readable(blobs, plan)
    && (forall i :: 0 <= i < |plan| ==>
          plan[i].path in t && t[plan[i].path] == File(ContentOf(blobs, plan[i]).value, plan[i].mode))
    && (forall p :: p in t && p != [] ==> Planned(t, plan, p))
  }

  ghost predicate Planned(t: Tree, plan: seq<PlanEntry>, p: Path)
    requires p in t
  {
    || (exists i :: 0 <= i < |plan| && p == plan[i].path)
    || (t[p].Dir? && exists i :: 0 <= i < |plan| && p < plan[i].path)
  }

  /** A plan determines its tree: two trees built from it agree everywhere. */
  lemma BuiltUnique(t: Tree, u: Tree, blobs: Blobs, plan: seq<PlanEntry>, p: Path)
    requires Built(t, blobs, plan) && Built(u, blobs, plan) && p in t
    ensures p in u && u[p] == t[p]
  {
    if p != [] {
      assert Planned(t, plan, p);
      if !exists i :: 0 <= i < |plan| && p == plan[i].path {
        var i :| 0 <= i < |plan| && p < plan[i].path;
        AncestorIsDir(u, plan[i].path, |p|);
        assert plan[i].path[..|p|] == p;
      }
    }
  }

  /** The tree has only gained directories on the way to `p`. */
  ghost predicate Grown(t0: Tree, t: Tree, p: Path) {
    && (forall q :: q in t0 ==> q in t && t[q] == t0[q])
    && (forall q :: q in t && q !in t0 ==> t[q].Dir? && q <= p)
  }

  lemma BuildStep(t0: Tree, t1: Tree, blobs: Blobs, done: seq<PlanEntry>, e: PlanEntry)
    requires Built(t0, blobs, done) && ContentOf(blobs, e).Some? && e.path != []
    requires Grown(t0, t1, Parent(e.path)) && Rooted(t1) && e.path !in t1 && IsDir(t1, Parent(e.path))
    ensures Built(t1[e.path := File(ContentOf(blobs, e).value, e.mode)], blobs, done + [e])
  {
    var more, n := done + [e], File(ContentOf(blobs, e).value, e.mode);
    RootedMore(t1, e.path, n);
    var t2 := t1[e.path := n];
    forall p | p in t2 && p != [] ensures Planned(t2, more, p) {
      PlannedStep(t0, t1, blobs, done, e, n, p);
    }
  }

  lemma OnlyAboveGrown(t0: Tree, t1: Tree, p: Path)
    requires p != [] && Grown(t0, t1, Parent(p))
    ensures p in t1 ==> p in t0
  {
    assert |Parent(p)| < |p|;
  }

  lemma NotWritten(t0: Tree, t1: Tree, blobs: Blobs, done: seq<PlanEntry>, e: PlanEntry)
    requires Built(t0, blobs, done) && Grown(t0, t1, Parent(e.path)) && e.path !in t1
    ensures forall i :: 0 <= i < |done| ==> done[i].path != e.path
  {
  }

  lemma BuiltEmpty(blobs: Blobs)
    ensures Built(map[[] := Dir], blobs, [])
  {
  }

  lemma PlannedStep(t0: Tree, t1: Tree, blobs: Blobs, done: seq<PlanEntry>, e: PlanEntry, n: Node, p: Path)
    requires Built(t0, blobs, done) && Grown(t0, t1, Parent(e.path)) && e.path != []
    requires p in t1[e.path := n] && p != [] && e.path !in t1
    ensures Planned(t1[e.path := n], done + [e], p)
  {
    var more := done + [e];
    assert more[|done|] == e;
    if p == e.path {
      assert p == more[|done|].path;
    } else if p in t0 {
      PlannedMore(t0, t1[e.path := n], done, e, p);
    } else {
      assert p <= Parent(e.path) && Parent(e.path) < e.path;
      assert p < more[|done|].path;
    }
  }

  lemma PlannedMore(t0: Tree, t2: Tree, done: seq<PlanEntry>, e: PlanEntry, p: Path)
    requires p in t0 && p in t2 && t2[p] == t0[p] && Planned(t0, done, p)
    ensures Planned(t2, done + [e], p)
  {
    var more := done + [e];
    assert forall i :: 0 <= i < |done| ==> more[i] == done[i];
    if i :| 0 <= i < |done| && p == done[i].path {
      assert p == more[i].path;
    } else {
      var i :| 0 <= i < |done| && p < done[i].path;
      assert p < more[i].path;
    }
  }

  /** Neither path is the other or below it. */
  predicate Apart(a: Path, b: Path) {
    !(a <= b) && !(b <= a)
  }

  /** No file of the plan is where another one is, or below it. */
  ghost predicate Separate(plan: seq<PlanEntry>) {
    forall i, j :: 0 <= i < j < |plan| ==> Apart(plan[i].path, plan[j].path)
  }

  lemma SeparateFront(plan: seq<PlanEntry>, k: nat)
    requires Separate(plan) && k <= |plan|
    ensures Separate(plan[..k])
  {
    forall i, j | 0 <= i < j < k ensures Apart(plan[..k][i].path, plan[..k][j].path) {
      assert plan[..k][i] == plan[i] && plan[..k][j] == plan[j];
    }
  }

  /** A plan that can be written: every blob can be read, and no file is in the way of another. */
  ghost predicate Writable(blobs: Blobs, plan: seq<PlanEntry>) {
    Readable(blobs, plan) && Separate(plan)
  }

  /** A file apart from all those written so far finds its place free, and only directories above it. */
  lemma RoomForEntry(t: Tree, blobs: Blobs, done: seq<PlanEntry>, e: PlanEntry)
    requires Built(t, blobs, done) && e.path != [] && Separate(done + [e])
    ensures e.path !in t && forall q :: q <= Parent(e.path) && q in t ==> t[q].Dir?
  {
    var more := done + [e];
    forall i | 0 <= i < |done| ensures Apart(done[i].path, e.path) {
      assert more[i] == done[i] && more[|done|] == e;
    }
    forall q | q <= e.path && q in t && q != [] ensures q != e.path && t[q].Dir? {
      assert Planned(t, done, q);
    }
  }

  lemma FilesApart(t: Tree, a: Path, b: Path)
    requires Rooted(t) && a in t && b in t && t[a].File? && t[b].File? && a != b
    ensures Apart(a, b)
  {
    if a < b {
      NotAbove(t, a, b);
    } else if b < a {
      NotAbove(t, b, a);
    }
  }

  lemma NotAbove(t: Tree, a: Path, b: Path)
    requires Rooted(t) && a in t && b in t && t[a].File?
    ensures !(a < b)
  {
    if a < b {
      assert a == b[..|a|];
      AncestorIsDir(t, b, |a|);
    }
  }

  /** A file that found its place free, in a tree that is one, is apart from all the others. */
  lemma EntryIsApart(t: Tree, blobs: Blobs, done: seq<PlanEntry>, e: PlanEntry)
    requires Built(t, blobs, done + [e]) && Separate(done) && e.path != []
    requires forall i :: 0 <= i < |done| ==> done[i].path != e.path && done[i].path != []
    ensures Separate(done + [e])
  {
    var more := done + [e];
    forall i | 0 <= i < |done| ensures Apart(more[i].path, e.path) {
      assert more[i] == done[i] && more[|done|] == e;
      FilesApart(t, done[i].path, e.path);
    }
    forall i, j | 0 <= i < j < |more| ensures Apart(more[i].path, more[j].path) {
      if j < |done| {
        assert Apart(done[i].path, done[j].path);
      }
    }
  }

  lemma RootedMore(t: Tree, p: Path, n: Node)
    requires Rooted(t) && p != [] && p !in t && IsDir(t, Parent(p))
    ensures Rooted(t[p := n])
  {
    assert Parent(p) != p;
  }

  lemma LinkedRooted(d: Disk, top: Inode, names: Names)
    requires Linked(d, top, names) && d[top].Directory?
    ensures Rooted(Seen(d, names))
  {
    forall p | p in names && p != [] ensures IsDir(Seen(d, names), Parent(p)) {
      LinkedParent(d, top, names, p);
    }
  }

  // ----- what the parent directory of the target may hold -----

  /** One extraction: the directory it works in, the names it uses there, and what it writes. */
  datatype Job = Job(parent: Inode, target: Name, temp: Name, blobs: Blobs, plan: seq<PlanEntry>)

  ghost predicate HasParent(d: Disk, job: Job) {
    job.parent in d && d[job.parent].Directory?
  }

  function ParentNow(d: Disk, job: Job): Entries {
    if job.parent in d then Now(d[job.parent]) else map[]
  }

  /** Where a job can start: its parent directory is there, and no planned path is the root itself. */
  ghost predicate CanStart(start: Disk, job: Job) {
    && WellFormed(start) && HasParent(start, job)
    && job.temp != job.target && forall i :: 0 <= i < |job.plan| ==> job.plan[i].path != []
  }

  /** The tree of the plan, and nothing else, is at and below `i`. */
  ghost predicate PlanAt(d: Disk, job: Job, i: Inode) {
    exists t :: Shows(d, i, t) && Built(t, job.blobs, job.plan)
  }

  /** `e` leads to the whole plan, and no power loss can change that. */
  ghost predicate Landing(start: Disk, job: Job, d: Disk, e: Option<Inode>) {
    e.Some? && FirmChild(d, start.Keys, e.value) && PlanAt(d, job, e.value)
  }

  /** The parent's entries are those of the start, but for the temporary name and, once landed, the target. */
  ghost predicate Agrees(start: Disk, job: Job, d: Disk, v: Entries)
    requires HasParent(start, job)
  {
    forall n :: n != job.temp ==>
      || FS.Entry(v, n) == FS.Entry(ParentNow(start, job), n)
      || (n == job.target && Landing(start, job, d, FS.Entry(v, n)))
  }

  /** Everything but the parent directory is as it was. */
  ghost predicate Same(start: Disk, job: Job, d: Disk) {
    forall i :: i in start && i != job.parent ==> i in d && d[i] == start[i]
  }

  ghost predicate Versions(start: Disk, job: Job, d: Disk)
    requires HasParent(start, job)
  {
    && HasParent(d, job) && |d[job.parent].versions| >= 1
    && Agrees(start, job, d, ParentNow(d, job))
    && (forall k :: 0 <= k < |d[job.parent].versions| ==>
          || d[job.parent].versions[k] in start[job.parent].versions
          || Agrees(start, job, d, d[job.parent].versions[k]))
  }

  /** What every state of an extraction keeps. */
  ghost predicate Safe(start: Disk, job: Job, d: Disk)
    requires HasParent(start, job)
  {
    Same(start, job, d) && Firm(d, start.Keys) && Versions(start, job, d)
  }

  /** The target now is as it was at the start, or is the whole plan. */
  ghost predicate TargetNow(start: Disk, job: Job, d: Disk)
  {
    var e := FS.Entry(ParentNow(d, job), job.target);
    e == FS.Entry(ParentNow(start, job), job.target) || (e.Some? && PlanAt(d, job, e.value))
  }

  /** An entry that the parent could already have held after a power loss at the start. */
  ghost predicate OldEntry(start: Disk, job: Job, n: Name, e: Option<Inode>)
    requires HasParent(start, job)
  {
    exists k :: 0 <= k < |start[job.parent].versions| && e == FS.Entry(start[job.parent].versions[k], n)
  }

  ghost predicate PlanAtTarget(job: Job, c: Disk) {
    var e := FS.Entry(ParentNow(c, job), job.target);
    e.Some? && PlanAt(c, job, e.value)
  }

  /**
   What a power loss may leave: every name of the parent as it could have been left at the start, except
   that the target may also be the whole plan; and every other node as a power loss at the start could
   have left it. The temporary name may be anything.
   */
  ghost predicate AfterLoss(start: Disk, job: Job, c: Disk)
    requires HasParent(start, job)
  {
    && job.parent in c
    && (forall i :: i in start && i != job.parent ==> i in c && Survives(start[i], c[i]))
    && (forall n :: n != job.temp ==>
          OldEntry(start, job, n, FS.Entry(ParentNow(c, job), n)) || (n == job.target && PlanAtTarget(job, c)))
  }

  lemma LandingSurvives(start: Disk, job: Job, d: Disk, c: Disk, e: Option<Inode>)
    requires Firm(d, start.Keys) && LossOf(d, c) && Landing(start, job, d, e)
    ensures PlanAt(c, job, e.value)
  {
    var t :| Shows(d, e.value, t) && Built(t, job.blobs, job.plan);
    ShowsSurvives(d, start.Keys, c, e.value, t);
  }

  lemma EntryAfterLoss(start: Disk, job: Job, d: Disk, c: Disk, n: Name)
    requires CanStart(start, job) && Safe(start, job, d) && LossOf(d, c) && n != job.temp
    ensures OldEntry(start, job, n, FS.Entry(ParentNow(c, job), n)) || (n == job.target && PlanAtTarget(job, c))
  {
    var versions := d[job.parent].versions;
    var k :| 0 <= k < |versions| && FS.Entry(ParentNow(c, job), n) == FS.Entry(versions[k], n);
    var before := start[job.parent].versions;
    if versions[k] in before {
      var j :| 0 <= j < |before| && before[j] == versions[k];
    } else if FS.Entry(versions[k], n) == FS.Entry(ParentNow(start, job), n) {
      assert ParentNow(start, job) == before[|before| - 1];
    } else {
      LandingSurvives(start, job, d, c, FS.Entry(versions[k], n));
    }
  }

  /** No power loss, in whatever state, leaves a part of the plan at the target. */
  lemma NoPartAtTarget(start: Disk, job: Job, d: Disk, c: Disk)
    requires CanStart(start, job) && Safe(start, job, d) && LossOf(d, c)
    ensures AfterLoss(start, job, c)
  {
    forall n | n != job.temp
      ensures OldEntry(start, job, n, FS.Entry(ParentNow(c, job), n)) || (n == job.target && PlanAtTarget(job, c))
    {
      EntryAfterLoss(start, job, d, c, n);
    }
  }

  /**
   The parent's sync is what makes the result last: once landed, the plan is at the target after every power
   loss exactly when every version of the parent that may come back has it there.
   */
  lemma LastsExactly(start: Disk, job: Job, d: Disk)
    requires CanStart(start, job) && Safe(start, job, d) && WellFormed(d)
    requires forall k :: 0 <= k < |start[job.parent].versions| ==> job.target !in start[job.parent].versions[k]
    ensures (forall c :: LossOf(d, c) ==> PlanAtTarget(job, c)) <==>
            forall k :: 0 <= k < |d[job.parent].versions| ==> job.target in d[job.parent].versions[k]
  {
    var versions := d[job.parent].versions;
    if k :| 0 <= k < |versions| && job.target !in versions[k] {
      var c := LossLeaving(d, job.parent, k);
    } else {
      forall c | LossOf(d, c) ensures PlanAtTarget(job, c) {
        EntryAfterLoss(start, job, d, c, job.target);
        var k :| 0 <= k < |versions| && FS.Entry(ParentNow(c, job), job.target) == FS.Entry(versions[k], job.target);
      }
    }
  }

  // ----- the states before the rename -----

  /** The new nodes hold no settled directory with anything in it. */
  ghost predicate Loose(d: Disk, prior: set<Inode>) {
    forall i :: i in d && i !in prior && Settled(d[i]) ==> Now(d[i]) == map[]
  }

  lemma LooseIsFirm(d: Disk, prior: set<Inode>)
    requires Loose(d, prior)
    ensures Firm(d, prior)
  {
  }

  /** The parent's entries are those of the start, but for the temporary name. */
  ghost predicate AgreesBefore(start: Disk, job: Job, v: Entries)
    requires HasParent(start, job)
  {
    forall n :: n != job.temp ==> FS.Entry(v, n) == FS.Entry(ParentNow(start, job), n)
  }

  ghost predicate Aside(start: Disk, job: Job, d: Disk)
    requires HasParent(start, job)
  {
    && Same(start, job, d) && Firm(d, start.Keys)
    && HasParent(d, job) && |d[job.parent].versions| >= 1
    && AgreesBefore(start, job, ParentNow(d, job))
    && (forall k :: 0 <= k < |d[job.parent].versions| ==>
          || d[job.parent].versions[k] in start[job.parent].versions
          || AgreesBefore(start, job, d[job.parent].versions[k]))
  }

  lemma AsideIsSafe(start: Disk, job: Job, d: Disk)
    requires HasParent(start, job) && Aside(start, job, d)
    ensures Safe(start, job, d)
  {
    assert forall v :: AgreesBefore(start, job, v) ==> Agrees(start, job, d, v);
  }

  lemma StartIsAside(start: Disk, job: Job)
    requires CanStart(start, job)
    ensures Aside(start, job, start)
  {
    var versions := start[job.parent].versions;
    assert forall k :: 0 <= k < |versions| ==> versions[k] in versions;
  }

  /** A change to new nodes only. */
  lemma AsideInside(start: Disk, job: Job, d: Disk, e: Disk)
    requires HasParent(start, job) && Aside(start, job, d) && Firm(e, start.Keys)
    requires forall i :: i in start ==> i in e && i in d && e[i] == d[i]
    ensures Aside(start, job, e)
  {
  }

  /** A new version of the parent that differs only in the temporary name. */
  lemma AsideVersion(start: Disk, job: Job, d: Disk, e: Disk, v: Entries)
    requires HasParent(start, job) && Aside(start, job, d) && Firm(e, start.Keys)
    requires e.Keys >= d.Keys && e[job.parent] == Directory(d[job.parent].versions + [v])
    requires forall i :: i in start && i != job.parent ==> e[i] == d[i]
    requires forall n :: n != job.temp ==> FS.Entry(v, n) == FS.Entry(ParentNow(d, job), n)
    ensures Aside(start, job, e)
  {
    var versions, more := d[job.parent].versions, e[job.parent].versions;
    assert AgreesBefore(start, job, v);
    forall k | 0 <= k < |more| ensures more[k] in start[job.parent].versions || AgreesBefore(start, job, more[k]) {
      if k < |versions| { assert more[k] == versions[k]; }
    }
  }

  /** Every file below the temporary directory is synced, `but` for these. */
  ghost predicate FilesSynced(d: Disk, names: Names, but: set<Path>) {
    forall p :: p in names && p !in but && names[p] in d && d[names[p]].Content? ==> Settled(d[names[p]])
  }

  lemma FilesAdded(d: Disk, top: Inode, names: Names, p: Path, i: Inode, s: Stored)
    requires Room(d, top, names, p, i) && FilesSynced(d, names, {})
    ensures FilesSynced(Added(d, names[Parent(p)], p[|p| - 1], i, s), names[p := i], if s.Content? then {p} else {})
  {
  }

  lemma FileChanged(d: Disk, top: Inode, names: Names, p: Path, s: Stored)
    requires Linked(d, top, names) && FilesSynced(d, names, {p}) && p in names
    ensures FilesSynced(d[names[p] := s], names, if Settled(s) then {} else {p})
  {
  }

  /** Syncing a directory whose subdirectories are all synced keeps the disk firm. */
  lemma SyncKeepsFirm(d: Disk, prior: set<Inode>, top: Inode, names: Names, p: Path)
    requires Linked(d, top, names) && FilesSynced(d, names, {}) && Firm(d, prior)
    requires p in names && d[names[p]].Directory?
    requires forall q :: q in names ==> names[q] !in prior
    requires forall q :: q in names && p < q && d[names[q]].Directory? ==> Settled(d[names[q]])
    ensures Firm(d[names[p] := Directory([Now(d[names[p]])])], prior)
  {
    var e := d[names[p] := Directory([Now(d[names[p]])])];
    forall i, n | i in e && i !in prior && Settled(e[i]) && n in Now(e[i]) ensures FirmChild(e, prior, Now(e[i])[n]) {
      if i == names[p] {
        assert FS.Entry(Now(d[names[p]]), n) == Resolved(names, p + [n]);
        assert p < p + [n];
      }
    }
  }

  /** The rename puts the whole plan at the target, and nothing else changes. */
  lemma LandSafe(start: Disk, job: Job, d: Disk, top: Inode, names: Names)
    requires CanStart(start, job) && Aside(start, job, d) && FS.Entry(ParentNow(d, job), job.temp) == Some(top)
    requires Linked(d, top, names) && (forall p :: p in names ==> names[p] !in start) && Settled(d[top])
    requires Built(Seen(d, names), job.blobs, job.plan)
    ensures Safe(start, job, Moved(d, job))
    ensures Landing(start, job, Moved(d, job), Some(top)) && Linked(Moved(d, job), top, names)
  {
    var e := Moved(d, job);
    ElsewhereLinked(d, e, top, names);
    LinkedShows(e, top, names);
    assert Landing(start, job, e, Some(top));
    MovedAgrees(start, job, d, top);
    var versions, more := d[job.parent].versions, e[job.parent].versions;
    forall k | 0 <= k < |more| ensures more[k] in start[job.parent].versions || Agrees(start, job, e, more[k]) {
      if k < |versions| {
        assert more[k] == versions[k];
        assert AgreesBefore(start, job, more[k]) ==> Agrees(start, job, e, more[k]);
      }
    }
  }

  function MovedEntries(v: Entries, job: Job): Entries {
    if job.temp in v then (v - {job.temp})[job.target := v[job.temp]] else v
  }

  /** `rename` of the temporary directory to the target. */
  function Moved(d: Disk, job: Job): Disk
    requires HasParent(d, job)
  {
    d[job.parent := Directory(d[job.parent].versions + [MovedEntries(ParentNow(d, job), job)])]
  }

  lemma MovedAgrees(start: Disk, job: Job, d: Disk, top: Inode)
    requires CanStart(start, job) && Aside(start, job, d) && FS.Entry(ParentNow(d, job), job.temp) == Some(top)
    requires Landing(start, job, Moved(d, job), Some(top))
    ensures Agrees(start, job, Moved(d, job), MovedEntries(ParentNow(d, job), job))
  {
    var v, w := ParentNow(d, job), MovedEntries(ParentNow(d, job), job);
    forall n | n != job.temp
      ensures FS.Entry(w, n) == if n == job.target then Some(top) else FS.Entry(v, n)
    {
    }
  }

  /** `sync_parent_directory` */
  function ParentSynced(d: Disk, job: Job): Disk
    requires HasParent(d, job)
  {
    d[job.parent := Directory([ParentNow(d, job)])]
  }

  lemma SyncedParentSafe(start: Disk, job: Job, d: Disk, top: Inode, names: Names)
    requires CanStart(start, job) && Safe(start, job, d) && FS.Entry(ParentNow(d, job), job.target) == Some(top)
    requires Linked(d, top, names) && (forall p :: p in names ==> names[p] !in start) && Settled(d[top])
    requires Built(Seen(d, names), job.blobs, job.plan)
    ensures Safe(start, job, ParentSynced(d, job)) && PlanLasts(job, ParentSynced(d, job))
    ensures PlanAtTarget(job, ParentSynced(d, job))
  {
    var e := ParentSynced(d, job);
    ElsewhereLinked(d, e, top, names);
    LinkedShows(e, top, names);
    assert Landing(start, job, e, Some(top));
    assert Agrees(start, job, e, ParentNow(e, job));
    forall c | LossOf(e, c) ensures PlanAtTarget(job, c) {
      SettledSurvives(e[job.parent], c[job.parent]);
      LandingSurvives(start, job, e, c, Some(top));
    }
  }

  /** After every power loss the whole plan is at the target. */
  ghost predicate PlanLasts(job: Job, d: Disk) {
    forall c :: LossOf(d, c) ==> PlanAtTarget(job, c)
  }

  lemma AllAsideIsSafe(start: Disk, job: Job, history: seq<Disk>)
    requires CanStart(start, job) && forall h :: h in history ==> Aside(start, job, h)
    ensures forall h :: h in history ==> Safe(start, job, h)
  {
    forall h | h in history ensures Safe(start, job, h) {
      AsideIsSafe(start, job, h);
    }
  }

  /** Making the temporary directory. */
  lemma TopAdded(start: Disk, job: Job, d: Disk, i: Inode)
    requires CanStart(start, job) && Aside(start, job, d) && Loose(d, start.Keys) && i !in d
    ensures var e := Added(d, job.parent, job.temp, i, Directory([map[]]));
      && Aside(start, job, e) && Loose(e, start.Keys) && i !in start
      && Linked(e, i, map[[] := i]) && Seen(e, map[[] := i]) == map[[] := Dir]
      && FS.Entry(ParentNow(e, job), job.temp) == Some(i)
  {
    var e := Added(d, job.parent, job.temp, i, Directory([map[]]));
    LooseIsFirm(e, start.Keys);
    AsideVersion(start, job, d, e, ParentNow(d, job)[job.temp := i]);
  }

  lemma AddedInside(start: Disk, job: Job, d: Disk, g: Inode, n: Name, i: Inode, s: Stored)
    requires CanStart(start, job) && Aside(start, job, d) && Loose(d, start.Keys) && i !in d && Now(s) == map[]
    requires g in d && g !in start && d[g].Directory? && Sane(d[g])
    ensures Aside(start, job, Added(d, g, n, i, s)) && Loose(Added(d, g, n, i, s), start.Keys) && i !in start
  {
    var e := Added(d, g, n, i, s);
    LooseIsFirm(e, start.Keys);
    AsideInside(start, job, d, e);
  }

  lemma TopIsDir(d: Disk, top: Inode, names: Names)
    requires Linked(d, top, names) && d[top].Directory?
    ensures IsDir(Seen(d, names), [])
  {
  }

  lemma GrownNone(t: Tree, p: Path)
    ensures Grown(t, t, p)
  {
  }

  lemma GrownMore(t0: Tree, t: Tree, u: Tree, p: Path, q: Path)
    requires Grown(t0, t, p) && q <= p && (u == t || (q !in t && u == t[q := Dir]))
    ensures Grown(t0, u, p)
  {
  }

  lemma GrownDir(t0: Tree, t: Tree, p: Path, q: Path)
    requires Grown(t0, t, p) && q in t
    ensures (q in t0 ==> t0[q].Dir?) ==> t[q].Dir?
  {
  }

  lemma Overwritten(t: Tree, p: Path, a: Node, b: Node)
    ensures t[p := a][p := b] == t[p := b] && t[p := b][p := b] == t[p := b]
  {
  }

  lemma NamesThere(d: Disk, top: Inode, names: Names)
    requires Linked(d, top, names)
    ensures [] in names && names[[]] == top
    ensures forall p :: p in names ==> names[p] in d && Sane(d[names[p]])
  {
  }

  lemma AddedThere(d: Disk, top: Inode, names: Names, p: Path, i: Inode, s: Stored, parent: Inode)
    requires Room(d, top, names, p, i) && parent in d && parent !in names.Values && d[top].Directory?
    ensures var e := Added(d, names[Parent(p)], p[|p| - 1], i, s);
      e[i] == s && e[top].Directory? && e[parent] == d[parent]
  {
  }

  lemma ChangedInside(start: Disk, job: Job, d: Disk, i: Inode, s: Stored)
    requires CanStart(start, job) && Aside(start, job, d) && Loose(d, start.Keys)
    requires i in d && i !in start && Now(s) == map[]
    ensures Aside(start, job, d[i := s]) && Loose(d[i := s], start.Keys)
  {
    LooseIsFirm(d[i := s], start.Keys);
    AsideInside(start, job, d, d[i := s]);
  }

  /** The order serves its purpose: what is synced next has nothing unsynced below it. */
  lemma BelowIsSynced(t: Tree, order: seq<Path>, i: nat, d: Disk, top: Inode, names: Names)
    requires Linked(d, top, names) && t == Seen(d, names) && i < |order| && LeavesFirst(t, order)
    requires forall j :: 0 <= j < i ==> order[j] in names && Settled(d[names[order[j]]])
    ensures forall q :: q in names && order[i] < q && d[names[q]].Directory? ==> Settled(d[names[q]])
  {
    forall q | q in names && order[i] < q && d[names[q]].Directory? ensures Settled(d[names[q]]) {
      assert IsDir(t, q);
      var j :| 0 <= j < |order| && order[j] == q;
    }
  }

  // ----- the command -----

  datatype Result = Done | PlanOnly | Refused | Failed | NotConfirmed

  class Extractor {
    const job: Job
    ghost const start: Disk
    var disk: Disk
    /** The temporary directory, once made, and the names below it. */
    var top: Inode
    var names: Names
    var fates: seq<bool>
    ghost var history: seq<Disk>

    constructor (job: Job, disk: Disk, fates: seq<bool>)
      requires CanStart(disk, job)
      ensures this.job == job && this.disk == start == disk && history == [disk] && Building()
    {
      this.job := job;
      this.disk := disk;
      this.start := disk;
      this.fates := fates;
      top := 0;
      names := map[];
      history := [disk];
      StartIsAside(disk, job);
    }

    /** Every state so far differs from the start only at the temporary name and in new nodes. */
    ghost predicate Building()
      reads this`disk, this`history
    {
      && CanStart(start, job)
      && history != [] && history[|history| - 1] == disk && Aside(start, job, disk)
      && forall h :: h in history ==> Aside(start, job, h)
    }

    /** The temporary directory is there, and `names` are the names below it, all of them new. */
    ghost predicate Made()
      reads this`disk, this`history, this`top, this`names
    {
      && Building() && Linked(disk, top, names) && disk[top].Directory?
      && (forall p :: p in names ==> names[p] !in start)
      && FS.Entry(ParentNow(disk, job), job.temp) == Some(top)
    }

    /** The tree below the temporary directory, as programs see it. */
    ghost function Here(): Tree
      reads this`disk, this`names
    {
      Seen(disk, names)
    }

    /** Nothing the file system is asked to do will fail. */
    ghost predicate Smooth()
      reads this`fates
    {
      forall i :: 0 <= i < |fates| ==> fates[i]
    }

    method Fate() returns (ok: bool)
      modifies this`fates
      ensures old(Smooth()) ==> ok && Smooth()
    {
      if fates == [] {
        return true;
      }
      ok := fates[0];
      fates := fates[1..];
    }

    method Become(next: Disk)
      requires Building() && Aside(start, job, next)
      modifies this`disk, this`history
      ensures Building() && disk == next
    {
      disk := next;
      history := history + [next];
    }

    /** `create_dir` of the temporary sibling. */
    method MakeTop() returns (ok: bool)
      requires Building() && job.temp !in ParentNow(disk, job) && Loose(disk, start.Keys)
      modifies this
      ensures Building()
      ensures ok ==> Ready() && Here() == map[[] := Dir]
      ensures old(Smooth()) ==> ok && Smooth()
    {
      ok := Fate();
      if !ok { return; }
      var i := FS.FreshInode(disk.Keys);
      var next := Added(disk, job.parent, job.temp, i, Directory([map[]]));
      TopAdded(start, job, disk, i);
      top, names := i, map[[] := i];
      Become(next);
    }

    /** Between two writes: every file is synced, no directory with anything in it is. */
    ghost predicate Ready()
      reads this`disk, this`history, this`top, this`names
    {
      Made() && Loose(disk, start.Keys) && FilesSynced(disk, names, {})
    }

    /** The file at `p` is being written. */
    ghost predicate Open(p: Path)
      reads this`disk, this`history, this`top, this`names
    {
      && Made() && Loose(disk, start.Keys) && FilesSynced(disk, names, {p})
      && p in names && disk[names[p]].Content?
    }

    /** A new node below the temporary directory: an empty directory, or an empty file. */
    method Add(p: Path, s: Stored)
      requires Ready() && p != [] && p !in names && s in {Directory([map[]]), Content([], 0, false)}
      requires IsDir(Here(), Parent(p))
      modifies this`disk, this`names, this`history
      ensures Building() && if s.Content? then Open(p) else Ready()
      ensures Here() == old(Here())[p := Visible(s)] && p in names && disk[names[p]] == s
    {
      hide Linked, Loose, Firm, Aside, FilesSynced;
      var i := FS.FreshInode(disk.Keys);
      assert Parent(p) in names;
      var g, n := names[Parent(p)], p[|p| - 1];
      NamesThere(disk, top, names);
      AddLinked(disk, top, names, p, i, s);
      AddedInside(start, job, disk, g, n, i, s);
      FilesAdded(disk, top, names, p, i, s);
      AddedThere(disk, top, names, p, i, s, job.parent);
      Become(Added(disk, g, n, i, s));
      names := names[p := i];
    }

    /** A change to the open file; synced, it is done. */
    method Change(p: Path, bytes: seq<Byte>, mode: nat, synced: bool)
      requires Open(p)
      modifies this`disk, this`history
      ensures Building() && if synced then Ready() else Open(p)
      ensures Here() == old(Here())[p := File(bytes, mode)]
    {
      hide Linked, Loose, Firm, Aside, FilesSynced, Seen;
      var s := Content(bytes, mode, synced);
      NamesThere(disk, top, names);
      ReplaceLinked(disk, top, names, p, s);
      ChangedInside(start, job, disk, names[p], s);
      FileChanged(disk, top, names, p, s);
      Become(disk[names[p] := s]);
    }

    /** One step of `create_dir_all`: the directory is there, or is made. */
    method MakeDir(q: Path) returns (ok: bool)
      requires Ready() && q != [] && IsDir(Here(), Parent(q))
      modifies this
      ensures Ready() && (Here() == old(Here()) || (q !in old(Here()) && Here() == old(Here())[q := Dir]))
      ensures ok ==> IsDir(Here(), q)
      ensures old(Smooth()) ==> Smooth() && (ok <==> (q in old(Here()) ==> old(Here())[q].Dir?))
    {
      hide Linked, Loose, Firm, Aside, FilesSynced;
      NamesThere(disk, top, names);
      if q in names {
        return disk[names[q]].Directory?;
      }
      ok := Fate();
      if ok {
        Add(q, Directory([map[]]));
      }
    }

    /** `create_dir_all`, from the temporary directory down. */
    method MakeDirs(p: Path) returns (ok: bool)
      requires Ready()
      modifies this
      ensures Ready()
      ensures Grown(old(Here()), Here(), p)
      ensures ok ==> IsDir(Here(), p)
      ensures old(Smooth()) ==> Smooth()
      ensures old(Smooth()) && (forall q :: q <= p && q in old(Here()) ==> old(Here())[q].Dir?) ==> ok
    {
      TopIsDir(disk, top, names);
      GrownNone(Here(), p);
      hide Ready, Here, Grown;
      var k := 0;
      assert p[..0] == [];
      while k < |p|
        invariant 0 <= k <= |p| && Ready()
        invariant Grown(old(Here()), Here(), p) && IsDir(Here(), p[..k])
        invariant old(Smooth()) ==> Smooth()
      {
        var q := p[..k + 1];
        assert Parent(q) == p[..k] && q <= p;
        ghost var t := Here();
        if q in t { GrownDir(old(Here()), t, p, q); }
        ok := MakeDir(q);
        GrownMore(old(Here()), t, Here(), p, q);
        if !ok { return; }
        k := k + 1;
      }
      assert p[..k] == p;
      ok := true;
    }

    /** Write the open file, set its mode, and only then sync it. */
    method Fill(p: Path, bytes: seq<Byte>, mode: nat) returns (ok: bool)
      requires Building() && Open(p)
      modifies this
      ensures Building()
      ensures ok ==> Ready() && Here() == old(Here())[p := File(bytes, mode)]
      ensures old(Smooth()) ==> ok && Smooth()
    {
      hide Building, Made, Open, Ready, Here;
      ghost var t := Here();
      ok := Fate();
      if !ok {
        var n: nat :| n <= |bytes|;
        Change(p, bytes[..n], 0, false);
        return;
      }
      Change(p, bytes, 0, false);
      ok := Fate();
      if !ok { return; }
      Change(p, bytes, mode, false);
      ok := Fate();
      if !ok { return; }
      Change(p, bytes, mode, true);
      Overwritten(t, p, File(bytes, 0), File(bytes, mode));
    }

    /** `write_file_durably` */
    method WriteFile(p: Path, bytes: seq<Byte>, mode: nat) returns (ok: bool)
      requires Building() && Ready() && p != [] && IsDir(Here(), Parent(p))
      modifies this
      ensures Building()
      ensures ok ==> Ready() && p !in old(names) && Here() == old(Here())[p := File(bytes, mode)]
      ensures old(Smooth()) ==> Smooth() && (ok <==> p !in old(names))
    {
      hide Building, Made, Open, Ready, Here;
      ghost var t := Here();
      ok := Fate();
      if !ok || p in names {
        return false;
      }
      Add(p, Content([], 0, false));
      ok := Fill(p, bytes, mode);
      Overwritten(t, p, File([], 0), File(bytes, mode));
    }

    /** One turn of `write_plan`. */
    method WriteEntry(e: PlanEntry, ghost done: seq<PlanEntry>) returns (ok: bool, len: nat)
      requires Ready() && Built(Here(), job.blobs, done) && e.path != []
      requires Separate(done) && forall i :: 0 <= i < |done| ==> done[i].path != []
      modifies this
      ensures Building()
      ensures ok ==> ContentOf(job.blobs, e).Some? && len == |ContentOf(job.blobs, e).value|
      ensures ok ==> Ready() && Built(Here(), job.blobs, done + [e]) && Separate(done + [e])
      ensures old(Smooth()) ==> Smooth()
      ensures old(Smooth()) ==> (ok <==> ContentOf(job.blobs, e).Some? && Separate(done + [e]))
    {
      hide Linked, Loose, Firm, Aside, FilesSynced, Built, Separate;
      len := 0;
      if Separate(done + [e]) {
        RoomForEntry(Here(), job.blobs, done, e);
      }
      ok := MakeDirs(Parent(e.path));
      if !ok { return; }
      ghost var grown := Here();
      LinkedRooted(disk, top, names);
      OnlyAboveGrown(old(Here()), grown, e.path);
      NamesThere(disk, top, names);
      var content := ContentOf(job.blobs, e);
      if content.None? {
        return false, 0;
      }
      len := |content.value|;
      ok := WriteFile(e.path, content.value, e.mode);
      if !ok { return; }
      BuildStep(old(Here()), grown, job.blobs, done, e);
      NotWritten(old(Here()), grown, job.blobs, done, e);
      EntryIsApart(Here(), job.blobs, done, e);
    }

    /** Where `write_plan` stands after `i` entries. */
    ghost predicate Writing(i: nat, total: nat, largest: nat)
      requires i <= |job.plan|
      reads this`disk, this`history, this`top, this`names
    {
      && Ready()
      && Built(Here(), job.blobs, job.plan[..i]) && total == WrappedTotal(job.blobs, job.plan[..i])
      && Separate(job.plan[..i])
      && IsLargest(job.blobs, job.plan, i, largest)
    }

    method WriteNext(i: nat, total: nat, largest: nat) returns (ok: bool, sum: nat, most: nat)
      requires i < |job.plan| && Writing(i, total, largest)
      modifies this
      ensures Building()
      ensures ok ==> Writing(i + 1, sum, most)
      ensures old(Smooth()) ==> Smooth() && (Writable(job.blobs, job.plan) ==> ok)
    {
      hide Linked, Loose, Firm, Aside, FilesSynced, Seen, Planned;
      if Writable(job.blobs, job.plan) {
        SeparateFront(job.plan, i + 1);
      }
      assert job.plan[..i + 1] == job.plan[..i] + [job.plan[i]];
      var len;
      ok, len := WriteEntry(job.plan[i], job.plan[..i]);
      sum := (total + len) % U64;
      most := if len > largest then len else largest;
      if ok {
        WrappedStep(job.blobs, job.plan, i);
        LargerOfTwo(job.blobs, job.plan, i, largest, len);
      }
    }

    /** `write_plan`: the tree of the plan below the temporary directory, every file synced, and the totals. */
    method WritePlan() returns (ok: bool, total: nat, largest: nat)
      requires Building() && job.temp !in ParentNow(disk, job) && Loose(disk, start.Keys)
      modifies this
      ensures Building()
      ensures ok ==> Made() && FilesSynced(disk, names, {})
      ensures ok ==> Built(Here(), job.blobs, job.plan) && total == Total(job.blobs, job.plan) % U64
      ensures ok ==> job.plan[..|job.plan|] == job.plan && IsLargest(job.blobs, job.plan, |job.plan|, largest)
      ensures ok ==> Writable(job.blobs, job.plan)
      ensures old(Smooth()) ==> Smooth() && (Writable(job.blobs, job.plan) ==> ok)
    {
      hide Linked, Loose, Firm, Aside, FilesSynced, Seen, Planned;
      total, largest := 0, 0;
      BuiltEmpty(job.blobs);
      ok := MakeTop();
      if !ok { return; }
      assert job.plan[..0] == [];
      for i := 0 to |job.plan|
        invariant Writing(i, total, largest)
        invariant old(Smooth()) ==> Smooth()
      {
        ok, total, largest := WriteNext(i, total, largest);
        if !ok { return; }
      }
      assert job.plan[..|job.plan|] == job.plan;
      WrappedIsTotal(job.blobs, job.plan);
      ok := true;
    }

    /** The directories in `order` up to `i` are synced, and the tree is as it was. */
    ghost predicate Syncing(t: Tree, order: seq<Path>, i: nat)
      requires i <= |order|
      reads this`disk, this`history, this`top, this`names
    {
      && Made() && FilesSynced(disk, names, {}) && Here() == t
      && (forall j :: 0 <= j < i ==> order[j] in names && Settled(disk[names[order[j]]]))
    }

    /** `sync_directory` of the next directory: everything below it is synced already. */
    method SyncNext(ghost t: Tree, order: seq<Path>, i: nat)
      requires i < |order| && LeavesFirst(t, order) && Syncing(t, order, i)
      modifies this`disk, this`history
      ensures Syncing(t, order, i + 1)
    {
      var p := order[i];
      assert IsDir(t, p);
      BelowIsSynced(t, order, i, disk, top, names);
      SyncKeepsFirm(disk, start.Keys, top, names, p);
      var next := disk[names[p] := Directory([Now(disk[names[p]])])];
      ReplaceLinked(disk, top, names, p, next[names[p]]);
      AsideInside(start, job, disk, next);
      Become(next);
    }

    /** `sync_tree_directories` on the temporary directory, which itself comes last. */
    method SyncTree() returns (ok: bool)
      requires Made() && FilesSynced(disk, names, {})
      modifies this
      ensures Building()
      ensures ok ==> Made() && Here() == old(Here()) && Settled(disk[top])
      ensures old(Smooth()) ==> ok && Smooth()
    {
      ghost var t := Here();
      LinkedRooted(disk, top, names);
      var order := SyncOrder(Seen(disk, names));
      for i := 0 to |order|
        invariant Syncing(t, order, i)
        invariant old(Smooth()) ==> Smooth()
      {
        ok := Fate();
        if !ok { return; }
        SyncNext(t, order, i);
      }
      assert IsDir(t, []);
      ok := true;
    }

    /** `remove_dir_all` on the temporary sibling, its outcome ignored. */
    method CleanUp()
      requires Building()
      modifies this
      ensures Building()
      ensures old(Smooth()) ==> Smooth() && job.temp !in ParentNow(disk, job)
    {
      var ok := Fate();
      if ok && job.temp in ParentNow(disk, job) {
        var entries := ParentNow(disk, job) - {job.temp};
        var next := disk[job.parent := Directory(disk[job.parent].versions + [entries])];
        AsideVersion(start, job, disk, next, entries);
        Become(next);
      }
    }

    /** Write and sync the temporary sibling, or leave an error and at most a part of it. */
    method Prepare() returns (ok: bool)
      requires Building() && job.temp !in ParentNow(disk, job) && Loose(disk, start.Keys)
      modifies this
      ensures Building()
      ensures ok ==> Made() && Built(Here(), job.blobs, job.plan) && Settled(disk[top])
      ensures ok ==> Writable(job.blobs, job.plan)
      ensures old(Smooth()) ==> Smooth() && (Writable(job.blobs, job.plan) ==> ok)
      ensures old(Smooth()) && !ok ==> job.temp !in ParentNow(disk, job)
    {
      var total, largest;
      ok, total, largest := WritePlan();
      if ok {
        ok := SyncTree();
        if ok { return; }
      }
      CleanUp();
    }

    /** The limits, checked before anything is written. */
    method WithinLimits(report: bool, maxFiles: Option<nat>, maxBytes: Option<nat>) returns (ok: bool)
      ensures ok <==> Fits(job.blobs, job.plan, report, maxFiles, maxBytes)
    {
      if report || maxFiles.Some? || maxBytes.Some? {
        var summary := PlanSummary(job.blobs, job.plan);
        if summary.None? {
          return false;
        }
        if maxFiles.Some? && summary.value.0 > maxFiles.value {
          return false;
        }
        if maxBytes.Some? && summary.value.1 > maxBytes.value {
          return false;
        }
      }
      ok := true;
    }

    /** Every state so far keeps what a power loss must not break. */
    ghost predicate AllSafe()
      reads this
    {
      CanStart(start, job) && forall h :: h in history ==> Safe(start, job, h)
    }

    /** `rename_new_directory_no_replace`, when it succeeds. */
    method Land()
      requires Made() && Built(Here(), job.blobs, job.plan) && Settled(disk[top])
      modifies this`disk, this`history
      ensures AllSafe() && history == old(history) + [disk] && Safe(start, job, disk)
      ensures FS.Entry(ParentNow(disk, job), job.target) == Some(top) && job.temp !in ParentNow(disk, job)
      ensures Linked(disk, top, names) && Here() == old(Here()) && Settled(disk[top])
      ensures Landing(start, job, disk, Some(top))
    {
      LandSafe(start, job, disk, top, names);
      ElsewhereLinked(disk, Moved(disk, job), top, names);
      AllAsideIsSafe(start, job, history);
      disk := Moved(disk, job);
      history := history + [disk];
    }

    /** `sync_parent_directory` */
    method SyncParent() returns (ok: bool)
      requires AllSafe() && Safe(start, job, disk) && FS.Entry(ParentNow(disk, job), job.target) == Some(top)
      requires Linked(disk, top, names) && (forall p :: p in names ==> names[p] !in start) && Settled(disk[top])
      requires Built(Here(), job.blobs, job.plan)
      modifies this
      ensures AllSafe()
      ensures ok ==> PlanLasts(job, disk) && PlanAtTarget(job, disk)
      ensures !ok ==> disk == old(disk)
      ensures ParentNow(disk, job) == old(ParentNow(disk, job))
      ensures old(Smooth()) ==> ok
    {
      ok := Fate();
      if ok {
        SyncedParentSafe(start, job, disk, top, names);
        disk := ParentSynced(disk, job);
        history := history + [disk];
      }
    }

    /** `run_extract_inner` */
    method Run(planOnly: bool, json: bool, maxFiles: Option<nat>, maxBytes: Option<nat>) returns (r: Result)
      requires Building() && history == [start]
      modifies this
      ensures r in {Refused, PlanOnly} ==> history == [start] && disk == start
      ensures forall h, c :: h in history && LossOf(h, c) ==> AfterLoss(start, job, c)
      ensures forall h :: h in history ==> TargetNow(start, job, h)
      ensures r == Done ==> PlanLasts(job, disk)
      ensures r in {Done, NotConfirmed} ==> job.target !in ParentNow(start, job) && PlanAtTarget(job, disk)
      ensures r == Failed ==> job.target !in ParentNow(start, job) && Building()
      ensures r == PlanOnly <==> Fits(job.blobs, job.plan, planOnly || json, maxFiles, maxBytes) && planOnly
      ensures r == Refused <==>
                || !Fits(job.blobs, job.plan, planOnly || json, maxFiles, maxBytes)
                || (!planOnly && (job.target in ParentNow(start, job) || job.temp in ParentNow(start, job)))
      ensures r in {Done, NotConfirmed} ==> Writable(job.blobs, job.plan)
      ensures old(Smooth()) ==>
                (r == Done <==> r != Refused && !planOnly && Writable(job.blobs, job.plan))
      ensures r in {Done, NotConfirmed} || (old(Smooth()) && r == Failed) ==> job.temp !in ParentNow(disk, job)
    {
      r := Attempt(planOnly, json, maxFiles, maxBytes);
      forall h, c | h in history && LossOf(h, c) ensures AfterLoss(start, job, c) {
        NoPartAtTarget(start, job, h, c);
      }
    }

    method Attempt(planOnly: bool, json: bool, maxFiles: Option<nat>, maxBytes: Option<nat>) returns (r: Result)
      requires Building() && history == [start]
      modifies this
      ensures AllSafe()
      ensures r in {Refused, PlanOnly} ==> history == [start] && disk == start
      ensures r == Done ==> PlanLasts(job, disk)
      ensures r in {Done, NotConfirmed} ==> job.target !in ParentNow(start, job) && PlanAtTarget(job, disk)
      ensures r == Failed ==> job.target !in ParentNow(start, job) && Building()
      ensures r == PlanOnly <==> Fits(job.blobs, job.plan, planOnly || json, maxFiles, maxBytes) && planOnly
      ensures r == Refused <==>
                || !Fits(job.blobs, job.plan, planOnly || json, maxFiles, maxBytes)
                || (!planOnly && (job.target in ParentNow(start, job) || job.temp in ParentNow(start, job)))
      ensures r in {Done, NotConfirmed} ==> Writable(job.blobs, job.plan)
      ensures old(Smooth()) ==>
                (r == Done <==> r != Refused && !planOnly && Writable(job.blobs, job.plan))
      ensures r in {Done, NotConfirmed} || (old(Smooth()) && r == Failed) ==> job.temp !in ParentNow(disk, job)
    {
      hide Linked, Loose, Firm, Safe, Aside, Built, Seen, Shows;
      AllAsideIsSafe(start, job, history);
      var ok := WithinLimits(planOnly || json, maxFiles, maxBytes);
      if !ok {
        return Refused;
      }
      if planOnly {
        return PlanOnly;
      }
      if job.target in ParentNow(disk, job) || job.temp in ParentNow(disk, job) {
        return Refused;
      }
      ok := Prepare();
      AllAsideIsSafe(start, job, history);
      if !ok {
        return Failed;
      }
      ok := Fate();
      if !ok {
        CleanUp();
        AllAsideIsSafe(start, job, history);
        return Failed;
      }
      Land();
      ok := SyncParent();
      r := if ok then Done else NotConfirmed;
    }
  }
}
