/**
 Making a worktree match a state: the plan that decides what to write, keep and delete, what counts as
 being in the way, and the application of that plan one file at a time.
 */
module Materialize {
  import opened Bytes

  /** The components of a path below the root. */
  type Path = seq<string>

  datatype File = File(bytes: seq<Byte>, mode: nat)

  /** What is found at a worktree path: a regular file, a directory, or something else (a link, a socket, ...). */
  datatype Entry = Regular(file: File) | Folder | Special

  /** Whatever has a name is in a directory. */
  ghost predicate Sound(wt: map<Path, Entry>) {
    [] !in wt && forall p, k :: p in wt && 0 < k < |p| ==> p[..k] in wt && wt[p[..k]].Folder?
  }

  type Worktree = wt: map<Path, Entry> | Sound(wt) witness map[]

  /** The files of a replayed state. Nothing keeps a state from holding a file and another one below it. */
  type Manifest = m: map<Path, File> | [] !in m witness map[]

  predicate Holds(wt: Worktree, p: Path, bytes: seq<Byte>) {
    p in wt && wt[p].Regular? && wt[p].file.bytes == bytes
  }

  /** Every file of `m` is there with its bytes: what the clean check asks. Untracked files are no difference. */
  predicate HoldsAll(wt: Worktree, m: Manifest) {
    forall p :: p in m ==> Holds(wt, p, m[p].bytes)
  }

  /** Every file of `m` is in the worktree, bytes and mode. */
  predicate Matches(wt: Worktree, m: Manifest) {
    forall p :: p in m ==> p in wt && wt[p] == Regular(m[p])
  }

  /** No file of the state lies below another. */
  predicate PrefixFree(m: Manifest) {
    forall p, q :: p in m && q in m ==> !(p < q)
  }

  /** The directories that the files of a state need. */
  function Above(m: Manifest): set<Path> {
    set p, k | p in m && 0 < k < |p| :: p[..k]
  }

  lemma AboveMeans(m: Manifest, q: Path)
    ensures q in Above(m) <==> q != [] && exists p :: p in m && q < p
  {
    if q != [] && exists p :: p in m && q < p {
      var p :| p in m && q < p;
      assert q == p[..|q|];
    }
  }

  // ----- the plan -----

  datatype Inspection = Missing | IsRegular(bytes: seq<Byte>) | NotRegular | Unreachable

  /** Something that is no directory stands where a directory of `p` would have to be. */
  predicate Obstructed(wt: Worktree, p: Path) {
    exists k :: 0 < k < |p| && p[..k] in wt && !wt[p[..k]].Folder?
  }

  /** `inspect_entry` */
  function Inspect(wt: Worktree, p: Path): Inspection {
    if Obstructed(wt, p) then Unreachable
    else if p !in wt then Missing
    else match wt[p]
      case Regular(file) => IsRegular(file.bytes)
      case _ => NotRegular
  }

  lemma InDirectory(wt: Worktree, p: Path, q: Path)
    requires q in wt && p < q && p != []
    ensures p in wt && wt[p].Folder?
  {
    assert q[..|p|] == p;
  }

  /** What has a name is reachable. */
  lemma PresentIsReachable(wt: Worktree, p: Path)
    requires p in wt
    ensures !Obstructed(wt, p)
  {
  }

  datatype Plan = Plan(writes: seq<Path>, kept: seq<Path>, deletes: seq<Path>, inTheWay: seq<Path>)

  datatype Verdict = Write | Keep | Blocked | Stuck

  /** What the planner decides for a file of the target; it gives up on one it can not reach. */
  function TargetVerdict(wt: Worktree, p: Path, want: File, prior: Manifest): Verdict {
    match Inspect(wt, p)
    case Unreachable => Stuck
    case Missing => Write
    case NotRegular => Blocked
    case IsRegular(bytes) =>
      if bytes == want.bytes then Keep else if p in prior && bytes == prior[p].bytes then Write else Blocked
  }

  /** The same for a file of the old state that the target lacks: `Write` deletes it, `Keep` finds nothing to delete. */
  function OldVerdict(wt: Worktree, p: Path, was: File): Verdict {
    match Inspect(wt, p)
    case Unreachable => Stuck
    case Missing => Keep
    case NotRegular => Blocked
    case IsRegular(bytes) => if bytes == was.bytes then Write else Blocked
  }

  predicate NothingInTheWay(wt: Worktree, target: Manifest, prior: Manifest) {
    && (forall p :: p in target ==> TargetVerdict(wt, p, target[p], prior) in {Write, Keep})
    && (forall p :: p in prior && p !in target ==> OldVerdict(wt, p, prior[p]) in {Write, Keep})
  }

  /** Materialization can be carried through: nothing is in the way, and the target fits into a file system. */
  predicate Clear(wt: Worktree, target: Manifest, prior: Manifest) {
    NothingInTheWay(wt, target, prior) && PrefixFree(target)
  }

  /** An enumeration of a map's keys, each once. */
  ghost predicate Enumerates(paths: seq<Path>, m: Manifest) {
    && (forall p :: p in paths <==> p in m)
    && (forall i, j :: 0 <= i < j < |paths| ==> paths[i] != paths[j])
  }

  method Paths(m: Manifest) returns (paths: seq<Path>)
    ensures Enumerates(paths, m)
  {
    paths := [];
    var left := m.Keys;
    while left != {}
      invariant forall p :: p in m <==> p in left || p in paths
      invariant forall p :: p in paths ==> p !in left
      invariant forall i, j :: 0 <= i < j < |paths| ==> paths[i] != paths[j]
      decreases |left|
    {
      var p :| p in left;
      left := left - {p};
      paths := paths + [p];
    }
  }

  /** What each list of a plan holds, exactly. */
  ghost predicate PlanFor(plan: Plan, wt: Worktree, target: Manifest, prior: Manifest) {
    && (forall p :: p in plan.writes <==> p in target && TargetVerdict(wt, p, target[p], prior) == Write)
    && (forall p :: p in plan.kept <==> p in target && TargetVerdict(wt, p, target[p], prior) == Keep)
    && (forall p :: p in plan.deletes <==> p in prior && p !in target && OldVerdict(wt, p, prior[p]) == Write)
    && (plan.inTheWay == [] <==> NothingInTheWay(wt, target, prior))
  }

  /** The planner's first pass, over the target's files. */
  method PlanTarget(wt: Worktree, target: Manifest, paths: seq<Path>, prior: Manifest)
    returns (ok: bool, writes: seq<Path>, kept: seq<Path>, inTheWay: seq<Path>)
    requires Enumerates(paths, target)
    ensures ok <==> forall p :: p in target ==> TargetVerdict(wt, p, target[p], prior) != Stuck
    ensures ok ==> forall p :: p in writes <==> p in target && TargetVerdict(wt, p, target[p], prior) == Write
    ensures ok ==> forall p :: p in kept <==> p in target && TargetVerdict(wt, p, target[p], prior) == Keep
    ensures ok ==> forall p :: p in inTheWay <==> p in target && TargetVerdict(wt, p, target[p], prior) == Blocked
  {
    hide TargetVerdict;
    ok, writes, kept, inTheWay := true, [], [], [];
    for i := 0 to |paths|
      invariant forall p :: p in paths[..i] ==> TargetVerdict(wt, p, target[p], prior) != Stuck
      invariant forall p :: p in writes <==> p in paths[..i] && TargetVerdict(wt, p, target[p], prior) == Write
      invariant forall p :: p in kept <==> p in paths[..i] && TargetVerdict(wt, p, target[p], prior) == Keep
      invariant forall p :: p in inTheWay <==> p in paths[..i] && TargetVerdict(wt, p, target[p], prior) == Blocked
    {
      var p := paths[i];
      assert paths[..i + 1] == paths[..i] + [p];
      match TargetVerdict(wt, p, target[p], prior) {
        case Write => writes := writes + [p];
        case Keep => kept := kept + [p];
        case Blocked => inTheWay := inTheWay + [p];
        case Stuck => return false, writes, kept, inTheWay;
      }
    }
    assert paths[..|paths|] == paths;
  }

  /** The planner's second pass, over the old state's files that the target lacks. */
  method PlanPrior(wt: Worktree, target: Manifest, prior: Manifest, paths: seq<Path>)
    returns (ok: bool, deletes: seq<Path>, inTheWay: seq<Path>)
    requires Enumerates(paths, prior)
    ensures ok <==> forall p :: p in prior && p !in target ==> OldVerdict(wt, p, prior[p]) != Stuck
    ensures ok ==> forall p :: p in deletes <==> p in prior && p !in target && OldVerdict(wt, p, prior[p]) == Write
    ensures ok ==> forall p :: p in inTheWay <==> p in prior && p !in target && OldVerdict(wt, p, prior[p]) == Blocked
  {
    hide OldVerdict;
    ok, deletes, inTheWay := true, [], [];
    for i := 0 to |paths|
      invariant forall p :: p in paths[..i] && p !in target ==> OldVerdict(wt, p, prior[p]) != Stuck
      invariant forall p :: p in deletes <==> p in paths[..i] && p !in target && OldVerdict(wt, p, prior[p]) == Write
      invariant forall p :: p in inTheWay <==> p in paths[..i] && p !in target && OldVerdict(wt, p, prior[p]) == Blocked
    {
      var p := paths[i];
      assert paths[..i + 1] == paths[..i] + [p];
      if p !in target {
        match OldVerdict(wt, p, prior[p]) {
          case Write => deletes := deletes + [p];
          case Keep =>
          case Blocked => inTheWay := inTheWay + [p];
          case Stuck => return false, deletes, inTheWay;
        }
      }
    }
    assert paths[..|paths|] == paths;
  }

  /** `plan_materialization`: the plan, unless some path can not be reached. */
  method PlanMaterialization(wt: Worktree, target: Manifest, prior: Manifest) returns (plan: Option<Plan>)
    ensures plan.None? ==> !NothingInTheWay(wt, target, prior)
    ensures plan.Some? ==> PlanFor(plan.value, wt, target, prior)
  {
    var targetPaths := Paths(target);
    var ok, writes, kept, blocked := PlanTarget(wt, target, targetPaths, prior);
    if !ok {
      return None;
    }
    var priorPaths := Paths(prior);
    var ok', deletes, changed := PlanPrior(wt, target, prior, priorPaths);
    if !ok' {
      return None;
    }
    ClearWhenEmpty(wt, target, prior, blocked, changed);
    plan := Some(Plan(writes, kept, deletes, blocked + changed));
  }

  lemma ClearWhenEmpty(wt: Worktree, target: Manifest, prior: Manifest, blocked: seq<Path>, changed: seq<Path>)
    requires forall p :: p in target ==> TargetVerdict(wt, p, target[p], prior) != Stuck
    requires forall p :: p in prior && p !in target ==> OldVerdict(wt, p, prior[p]) != Stuck
    requires forall p :: p in blocked <==> p in target && TargetVerdict(wt, p, target[p], prior) == Blocked
    requires forall p :: p in changed <==> p in prior && p !in target && OldVerdict(wt, p, prior[p]) == Blocked
    ensures blocked + changed == [] <==> NothingInTheWay(wt, target, prior)
  {
    hide TargetVerdict, OldVerdict;
    if blocked != [] {
      assert blocked[0] in blocked;
    } else if changed != [] {
      assert changed[0] in changed;
    }
  }

  // ----- applying it -----

  /** The target's files and the directories they need, no other file of the old state, all else untouched. */
  function Replaced(wt: Worktree, target: Manifest, prior: Manifest): map<Path, Entry> {
    var gone := set p | p in prior && p !in target && p in wt && wt[p].Regular?;
    map p | p in target.Keys + Above(target) + (wt.Keys - gone) ::
      if p in target then Regular(target[p])
      else if p in Above(target) || p !in wt || p in gone then Folder
      else wt[p]
  }

  /** The worktree a complete materialization ends in. */
  function Materialized(wt: Worktree, target: Manifest, prior: Manifest): Worktree
    requires Clear(wt, target, prior)
  {
    ReplacedSound(wt, target, prior);
    Replaced(wt, target, prior)
  }

  /** What `Replaced` has at a path. */
  lemma ReplacedAt(wt: Worktree, target: Manifest, prior: Manifest, p: Path)
    ensures var r := Replaced(wt, target, prior);
      if p in target then p in r && r[p] == Regular(target[p])
      else if p in Above(target) then p in r && r[p] == Folder
      else if p in prior && p in wt && wt[p].Regular? then p !in r
      else SameAt(wt, r, p)
  {
  }

  /** Where a directory is needed there is one, or nothing. */
  lemma RoomAbove(wt: Worktree, target: Manifest, prior: Manifest, q: Path)
    requires NothingInTheWay(wt, target, prior) && q in Above(target)
    ensures q in wt ==> wt[q].Folder?
  {
    AboveMeans(target, q);
    var p :| p in target && q < p;
    assert q == p[..|q|];
    assert TargetVerdict(wt, p, target[p], prior) in {Write, Keep};
  }

  /** A target file is written where there is none, or over one. */
  lemma RoomAt(wt: Worktree, target: Manifest, prior: Manifest, p: Path)
    requires NothingInTheWay(wt, target, prior) && p in target
    ensures p in wt ==> wt[p].Regular?
  {
    assert TargetVerdict(wt, p, target[p], prior) in {Write, Keep};
  }

  lemma ReplacedSound(wt: Worktree, target: Manifest, prior: Manifest)
    requires Clear(wt, target, prior)
    ensures Sound(Replaced(wt, target, prior))
  {
    var r := Replaced(wt, target, prior);
    forall p, k | p in r && 0 < k < |p| ensures p[..k] in r && r[p[..k]].Folder? {
      ReplacedPrefix(wt, target, prior, p, k);
    }
    ReplacedAt(wt, target, prior, []);
  }

  lemma ReplacedPrefix(wt: Worktree, target: Manifest, prior: Manifest, p: Path, k: nat)
    requires Clear(wt, target, prior) && p in Replaced(wt, target, prior) && 0 < k < |p|
    ensures var r := Replaced(wt, target, prior); p[..k] in r && r[p[..k]].Folder?
  {
    var q := p[..k];
    assert q < p;
    ReplacedAt(wt, target, prior, p);
    ReplacedAt(wt, target, prior, q);
    AboveMeans(target, p);
    AboveMeans(target, q);
    if p in target || p in Above(target) {
      var t :| t in target && p <= t;
      assert q < t;
    } else {
      if q in target { RoomAt(wt, target, prior, q); }
    }
  }

  ghost predicate SameAt(a: map<Path, Entry>, b: map<Path, Entry>, p: Path) {
    (p in a <==> p in b) && (p in a ==> a[p] == b[p])
  }

  /**
   A worktree on the way there, as a crash may leave it: each target path is untouched or already has the
   target's bytes (its mode perhaps not yet), each directory that is needed may have been made, each path to
   delete is untouched or gone, all else is untouched.
   */
  ghost predicate Midway(wt0: Worktree, wt: Worktree, target: Manifest, prior: Manifest) {
    forall p :: MidwayAt(wt0, wt, target, prior, p)
  }

  ghost predicate MidwayAt(wt0: Worktree, wt: Worktree, target: Manifest, prior: Manifest, p: Path) {
    || SameAt(wt0, wt, p)
    || (p in target && Holds(wt, p, target[p].bytes))
    || (p in Above(target) && p !in wt0 && p in wt && wt[p].Folder?)
    || (p in prior && p !in target && p !in Above(target) && p !in wt)
  }

  ghost predicate AllMidway(trace: seq<Worktree>, wt0: Worktree, target: Manifest, prior: Manifest) {
    forall i :: 0 <= i < |trace| ==> Midway(wt0, trace[i], target, prior)
  }

  predicate EndsIn(start: Worktree, trace: seq<Worktree>, wt: Worktree) {
    if |trace| == 0 then wt == start else trace[|trace| - 1] == wt
  }

  /** Target paths in `done` are finished; every other path is as it was, or is a directory made for the target. */
  ghost predicate Finished(wt0: Worktree, wt: Worktree, target: Manifest, done: set<Path>) {
    && (forall p :: p in done ==> p in target && p in wt && wt[p] == Regular(target[p]))
    && (forall p :: p !in done ==>
          SameAt(wt0, wt, p) || (p in Above(target) && p !in wt0 && p in wt && wt[p] == Folder))
  }

  lemma FinishedMidway(wt0: Worktree, wt: Worktree, target: Manifest, prior: Manifest, done: set<Path>)
    requires Finished(wt0, wt, target, done)
    ensures Midway(wt0, wt, target, prior)
  {
  }

  /** Every directory of `p` is there. */
  ghost predicate Housed(wt: Worktree, p: Path, upTo: nat) {
    forall k :: 0 < k < |p| && k <= upTo ==> p[..k] in wt && wt[p[..k]].Folder?
  }

  lemma FolderAdded(wt: Worktree, p: Path, k: nat)
    requires 0 < k < |p| && Housed(wt, p, k - 1) && p[..k] !in wt
    ensures Sound(wt[p[..k] := Folder]) && Housed(wt[p[..k] := Folder], p, k)
  {
    var q := p[..k];
    forall j | 0 < j < k ensures q[..j] in wt && wt[q[..j]].Folder? {
      assert q[..j] == p[..j];
    }
  }

  /** `ensure_directory_required` on the parent of `p`: fails at the first thing that is no directory. */
  method EnsureParents(ghost wt0: Worktree, start: Worktree, p: Path, ghost target: Manifest, ghost prior: Manifest,
                       ghost done: set<Path>)
    returns (ok: bool, wt: Worktree, trace: seq<Worktree>)
    requires Finished(wt0, start, target, done) && p in target
    ensures Finished(wt0, wt, target, done) && AllMidway(trace, wt0, target, prior) && EndsIn(start, trace, wt)
    ensures ok ==> Housed(wt, p, |p|)
    ensures !ok ==> Obstructed(wt, p)
    ensures p in wt ==> p in start
  {
    ok, wt, trace := true, start, [];
    var k := 1;
    while k < |p|
      invariant 1 <= k && Finished(wt0, wt, target, done) && AllMidway(trace, wt0, target, prior)
      invariant EndsIn(start, trace, wt) && Housed(wt, p, k - 1) && (p in wt ==> p in start)
    {
      var q := p[..k];
      if q in wt {
        if !wt[q].Folder? {
          return false, wt, trace;
        }
      } else {
        FolderAdded(wt, p, k);
        FolderFinished(wt0, wt, target, done, p, k);
        wt := wt[q := Folder];
        FinishedMidway(wt0, wt, target, prior, done);
        trace := trace + [wt];
      }
      k := k + 1;
    }
  }

  lemma FolderFinished(wt0: Worktree, wt: Worktree, target: Manifest, done: set<Path>, p: Path, k: nat)
    requires Finished(wt0, wt, target, done) && p in target && 0 < k < |p|
    requires p[..k] !in wt && Sound(wt[p[..k] := Folder])
    ensures Finished(wt0, wt[p[..k] := Folder], target, done)
  {
    AboveMeans(target, p[..k]);
    assert p[..k] < p;
  }

  lemma FileAdded(wt: Worktree, p: Path, f: File)
    requires p != [] && Housed(wt, p, |p|) && (p in wt ==> wt[p].Regular?)
    ensures Sound(wt[p := Regular(f)])
  {
    var w := wt[p := Regular(f)];
    forall x, k | x in w && 0 < k < |x| ensures x[..k] in w && w[x[..k]].Folder? {
      if x != p { assert wt[x[..k]].Folder?; }
    }
  }

  /** One file of the target written: the bytes first, its mode afterwards. */
  lemma FinishedOneMore(wt0: Worktree, wt: Worktree, target: Manifest, prior: Manifest, done: set<Path>, p: Path)
    requires Finished(wt0, wt, target, done) && p in target && Housed(wt, p, |p|) && (p in wt ==> wt[p].Regular?)
    ensures var written := wt[p := Regular(File(target[p].bytes, 0))];
      && Sound(written) && Midway(wt0, written, target, prior)
      && Sound(wt[p := Regular(target[p])]) && Midway(wt0, wt[p := Regular(target[p])], target, prior)
      && Finished(wt0, wt[p := Regular(target[p])], target, done + {p})
  {
    hide Sound;
    FileAdded(wt, p, File(target[p].bytes, 0));
    FileAdded(wt, p, target[p]);
    OneFileMidway(wt0, wt, target, prior, done, p, File(target[p].bytes, 0));
    OneFileMidway(wt0, wt, target, prior, done, p, target[p]);
  }

  lemma OneFileMidway(wt0: Worktree, wt: Worktree, target: Manifest, prior: Manifest, done: set<Path>, p: Path, f: File)
    requires Finished(wt0, wt, target, done) && p in target && f.bytes == target[p].bytes && Sound(wt[p := Regular(f)])
    ensures Midway(wt0, wt[p := Regular(f)], target, prior)
    ensures f == target[p] ==> Finished(wt0, wt[p := Regular(f)], target, done + {p})
  {
    hide Sound, Above;
    FinishedMidway(wt0, wt, target, prior, done);
    var w := wt[p := Regular(f)];
    forall x ensures MidwayAt(wt0, w, target, prior, x) {
      assert MidwayAt(wt0, wt, target, prior, x);
    }
  }

  /** One file of `apply_materialization_plan`'s first loop. */
  method WriteOne(ghost wt0: Worktree, start: Worktree, p: Path, target: Manifest, ghost prior: Manifest,
                  ghost done: set<Path>)
    returns (ok: bool, wt: Worktree, trace: seq<Worktree>)
    requires Finished(wt0, start, target, done) && p in target
    ensures AllMidway(trace, wt0, target, prior) && EndsIn(start, trace, wt)
    ensures ok ==> Finished(wt0, wt, target, done + {p})
    ensures !ok ==> Finished(wt0, wt, target, done) && (Obstructed(wt, p) || (p in wt && !wt[p].Regular?))
  {
    ok, wt, trace := EnsureParents(wt0, start, p, target, prior, done);
    if !ok {
      return;
    }
    if p in wt && !wt[p].Regular? {
      return false, wt, trace;
    }
    FinishedOneMore(wt0, wt, target, prior, done, p);
    // The replacement is atomic; the new file's mode is set afterwards.
    var written := wt[p := Regular(File(target[p].bytes, 0))];
    wt := wt[p := Regular(target[p])];
    trace := trace + [written, wt];
  }

  /** Nothing but another file of the target can stop a write. */
  lemma StoppedByTarget(wt0: Worktree, wt: Worktree, target: Manifest, prior: Manifest, done: set<Path>, p: Path)
    requires NothingInTheWay(wt0, target, prior) && Finished(wt0, wt, target, done) && p in target
    requires Obstructed(wt, p) || (p in wt && !wt[p].Regular?)
    ensures !PrefixFree(target)
  {
    if Obstructed(wt, p) {
      var k :| 0 < k < |p| && p[..k] in wt && !wt[p[..k]].Folder?;
      var q := p[..k];
      assert q < p;
      AboveMeans(target, q);
      RoomAbove(wt0, target, prior, q);
      assert q in done;
    } else {
      RoomAt(wt0, target, prior, p);
      AboveMeans(target, p);
    }
  }

  /** The first loop: every file to write, in any order. */
  method WriteFiles(wt0: Worktree, paths: seq<Path>, target: Manifest, ghost prior: Manifest)
    returns (ok: bool, wt: Worktree, trace: seq<Worktree>)
    requires NothingInTheWay(wt0, target, prior) && forall p :: p in paths ==> p in target
    ensures ok ==> Finished(wt0, wt, target, set p | p in paths)
    ensures !ok ==> !PrefixFree(target)
    ensures AllMidway(trace, wt0, target, prior) && EndsIn(wt0, trace, wt)
  {
    hide NothingInTheWay, Finished, Midway, PrefixFree;
    ok, wt, trace := true, wt0, [];
    ghost var done: set<Path> := {};
    NoneFinished(wt0, target);
    for i := 0 to |paths|
      invariant EndsIn(wt0, trace, wt)
      invariant done == set p | p in paths[..i]
      invariant Finished(wt0, wt, target, done)
      invariant AllMidway(trace, wt0, target, prior)
    {
      var p := paths[i];
      assert paths[..i + 1] == paths[..i] + [p];
      var more;
      ok, wt, more := WriteOne(wt0, wt, p, target, prior, done);
      trace := trace + more;
      if !ok {
        StoppedByTarget(wt0, wt, target, prior, done, p);
        return;
      }
      done := done + {p};
    }
    assert paths[..|paths|] == paths;
  }

  lemma NoneFinished(wt: Worktree, target: Manifest)
    ensures Finished(wt, wt, target, {})
  {
  }

  lemma ModeFinished(wt0: Worktree, wt: Worktree, target: Manifest, prior: Manifest, done: set<Path>, p: Path)
    requires Finished(wt0, wt, target, done) && p in target && p in wt0 && Holds(wt0, p, target[p].bytes)
    ensures Sound(wt[p := Regular(target[p])])
    ensures Finished(wt0, wt[p := Regular(target[p])], target, done + {p})
    ensures Midway(wt0, wt[p := Regular(target[p])], target, prior)
  {
    assert p in wt && wt[p].Regular?;
    FileAdded(wt, p, target[p]);
  }

  /** The second loop: the modes of the files whose bytes are right already. */
  method SetModes(ghost wt0: Worktree, start: Worktree, paths: seq<Path>, target: Manifest, ghost prior: Manifest,
                  ghost before: set<Path>)
    returns (wt: Worktree, trace: seq<Worktree>)
    requires Finished(wt0, start, target, before)
    requires forall p :: p in paths ==> p in target && Holds(wt0, p, target[p].bytes)
    ensures Finished(wt0, wt, target, before + set p | p in paths)
    ensures AllMidway(trace, wt0, target, prior) && EndsIn(start, trace, wt)
  {
    hide Finished, Midway;
    wt, trace := start, [];
    ghost var done := before;
    for i := 0 to |paths|
      invariant EndsIn(start, trace, wt)
      invariant done == before + set p | p in paths[..i]
      invariant Finished(wt0, wt, target, done)
      invariant AllMidway(trace, wt0, target, prior)
    {
      var p := paths[i];
      assert paths[..i + 1] == paths[..i] + [p];
      ModeFinished(wt0, wt, target, prior, done, p);
      wt := wt[p := Regular(target[p])];
      trace := trace + [wt];
      done := done + {p};
    }
    assert paths[..|paths|] == paths;
  }

  /** The old files in `gone` are deleted, the target is all there. */
  ghost predicate Removed(wt0: Worktree, wt: Worktree, target: Manifest, gone: set<Path>) {
    && (forall p :: p in target ==> p in wt && wt[p] == Regular(target[p]))
    && (forall p :: p in gone ==> p !in wt && p !in target)
    && (forall p :: p !in target && p !in gone ==>
          SameAt(wt0, wt, p) || (p in Above(target) && p !in wt0 && p in wt && wt[p] == Folder))
  }

  lemma RemovedOneMore(wt0: Worktree, wt: Worktree, target: Manifest, prior: Manifest, gone: set<Path>, p: Path)
    requires NothingInTheWay(wt0, target, prior) && Removed(wt0, wt, target, gone) && p !in gone
    requires p in prior && p !in target && Holds(wt0, p, prior[p].bytes)
    requires forall q :: q in gone ==> q in prior && q !in Above(target)
    ensures Sound(wt - {p}) && Removed(wt0, wt - {p}, target, gone + {p}) && Midway(wt0, wt - {p}, target, prior)
    ensures p !in Above(target)
  {
    assert p in wt && wt[p].Regular?;
    if p in Above(target) { RoomAbove(wt0, target, prior, p); }
    forall x, k | x in wt - {p} && 0 < k < |x| ensures x[..k] in wt - {p} && (wt - {p})[x[..k]].Folder? {
      assert wt[x[..k]].Folder?;
    }
  }

  /** The third loop: deleting the old files that the target lacks. */
  method RemoveOld(ghost wt0: Worktree, start: Worktree, paths: seq<Path>, ghost target: Manifest,
                   ghost prior: Manifest)
    returns (wt: Worktree, trace: seq<Worktree>)
    requires NothingInTheWay(wt0, target, prior) && Removed(wt0, start, target, {})
    requires forall p :: p in paths ==> p in prior && p !in target && Holds(wt0, p, prior[p].bytes)
    ensures Removed(wt0, wt, target, set p | p in paths)
    ensures AllMidway(trace, wt0, target, prior) && EndsIn(start, trace, wt)
  {
    hide NothingInTheWay, Removed, Midway;
    wt, trace := start, [];
    ghost var gone: set<Path> := {};
    for i := 0 to |paths|
      invariant EndsIn(start, trace, wt)
      invariant gone == set p | p in paths[..i]
      invariant forall q :: q in gone ==> q in prior && q !in Above(target)
      invariant Removed(wt0, wt, target, gone)
      invariant AllMidway(trace, wt0, target, prior)
    {
      var p := paths[i];
      assert paths[..i + 1] == paths[..i] + [p];
      // A path listed twice is already gone.
      if p in wt {
        NotGone(wt0, wt, target, gone, p);
        RemovedOneMore(wt0, wt, target, prior, gone, p);
        wt := wt - {p};
        trace := trace + [wt];
      } else {
        GoneAlready(wt0, wt, target, prior, gone, p);
      }
      gone := gone + {p};
    }
    assert paths[..|paths|] == paths;
  }

  lemma NotGone(wt0: Worktree, wt: Worktree, target: Manifest, gone: set<Path>, p: Path)
    requires Removed(wt0, wt, target, gone) && p in wt
    ensures p !in gone
  {
  }

  lemma GoneAlready(wt0: Worktree, wt: Worktree, target: Manifest, prior: Manifest, gone: set<Path>, p: Path)
    requires Removed(wt0, wt, target, gone) && p !in wt && p in prior && p !in target && Holds(wt0, p, prior[p].bytes)
    ensures p in gone && gone + {p} == gone
  {
  }

  lemma PlanCoversTarget(plan: Plan, wt: Worktree, target: Manifest, prior: Manifest)
    requires PlanFor(plan, wt, target, prior) && plan.inTheWay == []
    ensures (set p | p in plan.writes) + (set p | p in plan.kept) == target.Keys
    ensures forall p :: p in plan.kept ==> Holds(wt, p, target[p].bytes)
    ensures forall p :: p in plan.deletes ==> p in prior && p !in target && Holds(wt, p, prior[p].bytes)
  {
    forall p | p in target ensures p in plan.writes || p in plan.kept {
      assert TargetVerdict(wt, p, target[p], prior) in {Write, Keep};
    }
  }

  lemma FinishedRemoved(wt0: Worktree, wt: Worktree, target: Manifest)
    requires Finished(wt0, wt, target, target.Keys)
    ensures Removed(wt0, wt, target, {})
  {
  }

  lemma AllFilesFit(wt0: Worktree, wt: Worktree, target: Manifest)
    requires Finished(wt0, wt, target, target.Keys)
    ensures PrefixFree(target)
  {
    forall p, q | p in target && q in target ensures !(p < q) {
      NothingBelowFile(wt, p, q);
    }
  }

  lemma NothingBelowFile(wt: Worktree, p: Path, q: Path)
    requires p in wt && !wt[p].Folder? && q in wt
    ensures !(p < q)
  {
    if p <= q {
      assert q[..|p|] == p;
    }
  }

  lemma RemovedIsMaterialized(plan: Plan, wt0: Worktree, wt: Worktree, target: Manifest, prior: Manifest)
    requires PlanFor(plan, wt0, target, prior) && plan.inTheWay == [] && PrefixFree(target)
    requires Removed(wt0, wt, target, set p | p in plan.deletes)
    ensures wt == Materialized(wt0, target, prior)
  {
    forall p ensures SameAt(Replaced(wt0, target, prior), wt, p) {
      RemovedAt(plan, wt0, wt, target, prior, p);
    }
    SameEverywhere(Replaced(wt0, target, prior), wt);
  }

  lemma SameEverywhere(a: map<Path, Entry>, b: map<Path, Entry>)
    requires forall p :: SameAt(a, b, p)
    ensures a == b
  {
    forall p ensures (p in a <==> p in b) && (p in a ==> a[p] == b[p]) {
      assert SameAt(a, b, p);
    }
    assert a.Keys == b.Keys;
  }

  lemma RemovedAt(plan: Plan, wt0: Worktree, wt: Worktree, target: Manifest, prior: Manifest, p: Path)
    requires PlanFor(plan, wt0, target, prior) && plan.inTheWay == []
    requires Removed(wt0, wt, target, set p | p in plan.deletes)
    ensures SameAt(Replaced(wt0, target, prior), wt, p)
  {
    hide Replaced, Above;
    ReplacedAt(wt0, target, prior, p);
    if p in Above(target) {
      RoomAbove(wt0, target, prior, p);
      AboveMeans(target, p);
      var t :| t in target && p < t;
      assert t[..|p|] == p;
    }
    if p in prior && p !in target {
      assert OldVerdict(wt0, p, prior[p]) in {Write, Keep};
    }
  }

  /** `apply_materialization_plan`: every durable state it leaves behind, one per effect. */
  method Apply(wt0: Worktree, plan: Plan, target: Manifest, ghost prior: Manifest)
    returns (ok: bool, wt: Worktree, trace: seq<Worktree>)
    requires PlanFor(plan, wt0, target, prior) && plan.inTheWay == []
    ensures ok <==> PrefixFree(target)
    ensures ok ==> Clear(wt0, target, prior) && wt == Materialized(wt0, target, prior)
    ensures AllMidway(trace, wt0, target, prior) && EndsIn(wt0, trace, wt)
  {
    PlanCoversTarget(plan, wt0, target, prior);
    ok, wt, trace := WriteFiles(wt0, plan.writes, target, prior);
    if !ok {
      return;
    }
    var written, writes := wt, trace;
    var moded, modes := SetModes(wt0, written, plan.kept, target, prior, set p | p in plan.writes);
    AllFilesFit(wt0, moded, target);
    FinishedRemoved(wt0, moded, target);
    var deletes;
    wt, deletes := RemoveOld(wt0, moded, plan.deletes, target, prior);
    RemovedIsMaterialized(plan, wt0, wt, target, prior);
    OneAfterAnother(wt0, target, prior, wt0, writes, written, modes, moded);
    OneAfterAnother(wt0, target, prior, wt0, writes + modes, moded, deletes, wt);
    trace := writes + modes + deletes;
  }

  lemma OneAfterAnother(wt0: Worktree, target: Manifest, prior: Manifest,
                        start: Worktree, a: seq<Worktree>, mid: Worktree, b: seq<Worktree>, end: Worktree)
    requires AllMidway(a, wt0, target, prior) && AllMidway(b, wt0, target, prior)
    requires EndsIn(start, a, mid) && EndsIn(mid, b, end)
    ensures AllMidway(a + b, wt0, target, prior) && EndsIn(start, a + b, end)
  {
  }

  // ----- what materialization promises -----

  /** The result holds the target, drops every other file of the old state, and leaves untracked files alone. */
  lemma MaterializedMatches(wt: Worktree, target: Manifest, prior: Manifest)
    requires Clear(wt, target, prior)
    ensures var m := Materialized(wt, target, prior);
      && Matches(m, target)
      && (forall p :: p in prior && p !in target && p in m ==> m[p].Folder?)
      && (forall p :: p !in prior && p !in target ==>
            SameAt(wt, m, p) || (p in Above(target) && p !in wt && p in m && m[p].Folder?))
  {
    var m := Materialized(wt, target, prior);
    forall p ensures p in target ==> p in m && m[p] == Regular(target[p])
             ensures p in prior && p !in target && p in m ==> m[p].Folder?
             ensures p !in prior && p !in target ==>
                       SameAt(wt, m, p) || (p in Above(target) && p !in wt && p in m && m[p].Folder?)
    {
      ReplacedAt(wt, target, prior, p);
      if p in Above(target) { RoomAbove(wt, target, prior, p); }
      if p in prior && p !in target { assert OldVerdict(wt, p, prior[p]) in {Write, Keep}; }
    }
  }

  lemma MaterializedMidway(wt: Worktree, target: Manifest, prior: Manifest)
    requires Clear(wt, target, prior)
    ensures Midway(wt, Materialized(wt, target, prior), target, prior)
  {
    var m := Materialized(wt, target, prior);
    forall p ensures MidwayAt(wt, m, target, prior, p) {
      ReplacedAt(wt, target, prior, p);
      if p in Above(target) { RoomAbove(wt, target, prior, p); }
    }
  }

  /** Nothing a user wrote is lost, at any point: only bytes the old state is known to hold are replaced or removed. */
  lemma OnlyKnownBytesReplaced(wt0: Worktree, wt: Worktree, target: Manifest, prior: Manifest, p: Path)
    requires NothingInTheWay(wt0, target, prior) && Midway(wt0, wt, target, prior)
    requires p in wt0 && wt0[p].Regular? && !Holds(wt, p, wt0[p].file.bytes)
    ensures p in prior && wt0[p].file.bytes == prior[p].bytes
  {
    assert MidwayAt(wt0, wt, target, prior, p);
    if p in target {
      assert TargetVerdict(wt0, p, target[p], prior) in {Write, Keep};
    } else {
      PresentIsReachable(wt0, p);
      assert OldVerdict(wt0, p, prior[p]) in {Write, Keep};
    }
  }

  /**
   Modes are not guarded like bytes: the clean check does not look at them. The mode of a file in the
   worktree survives exactly when the file is untracked, or stays with just that mode.
   */
  lemma ModeSurvives(wt: Worktree, target: Manifest, prior: Manifest, p: Path)
    requires Clear(wt, target, prior) && p in wt && wt[p].Regular?
    ensures var m := Materialized(wt, target, prior);
      (p in m && m[p].Regular? && m[p].file.mode == wt[p].file.mode) <==>
        if p in target then target[p].mode == wt[p].file.mode else p !in prior
  {
    ReplacedAt(wt, target, prior, p);
    if p in Above(target) { RoomAbove(wt, target, prior, p); }
  }

  /** A file above another one is what it takes for a crossing. */
  predicate Crosses(a: Manifest, b: Manifest) {
    exists p, q :: p in a && q in b && (p < q || q < p)
  }

  /** No file in the worktree but those of `m`. */
  ghost predicate OnlyFiles(wt: Worktree, m: Manifest) {
    forall p :: p in wt && !wt[p].Folder? ==> p in m
  }

  /**
   A clean worktree without untracked files: the target fits exactly when none of its files is where the
   worktree has a directory, and none lies below a tracked file.
   */
  lemma CleanAdmits(wt: Worktree, target: Manifest, prior: Manifest)
    requires HoldsAll(wt, prior) && OnlyFiles(wt, prior)
    ensures NothingInTheWay(wt, target, prior) <==>
              && (forall p :: p in target && p in wt ==> !wt[p].Folder?)
              && (forall p, q :: p in target && q in prior ==> !(q < p))
  {
    if NothingInTheWay(wt, target, prior) {
      forall p | p in target && p in wt ensures !wt[p].Folder? {
        RoomAt(wt, target, prior, p);
      }
      forall p, q | p in target && q in prior ensures !(q < p) {
        if q < p {
          AboveMeans(target, q);
          RoomAbove(wt, target, prior, q);
          assert false;
        }
      }
    } else if (forall p :: p in target && p in wt ==> !wt[p].Folder?)
              && (forall p, q :: p in target && q in prior ==> !(q < p)) {
      CleanRoom(wt, target, prior);
      assert false;
    }
  }

  lemma CleanRoom(wt: Worktree, target: Manifest, prior: Manifest)
    requires HoldsAll(wt, prior) && OnlyFiles(wt, prior)
    requires forall p :: p in target && p in wt ==> !wt[p].Folder?
    requires forall p, q :: p in target && q in prior ==> !(q < p)
    ensures NothingInTheWay(wt, target, prior)
  {
    forall p | p in target ensures TargetVerdict(wt, p, target[p], prior) in {Write, Keep} {
      forall k | 0 < k < |p| && p[..k] in wt ensures wt[p[..k]].Folder? {
        assert p[..k] < p;
      }
      if p in wt { assert Holds(wt, p, prior[p].bytes); }
    }
    forall p | p in prior && p !in target ensures OldVerdict(wt, p, prior[p]) in {Write, Keep} {
      assert Holds(wt, p, prior[p].bytes);
      PresentIsReachable(wt, p);
    }
  }

  /** With no directories either but those of tracked files, the target fits exactly when it crosses no tracked path. */
  lemma TidyAdmits(wt: Worktree, target: Manifest, prior: Manifest)
    requires HoldsAll(wt, prior) && OnlyFiles(wt, prior)
    requires forall p :: p in wt && wt[p].Folder? ==> p in Above(prior)
    ensures NothingInTheWay(wt, target, prior) <==> !Crosses(target, prior)
  {
    CleanAdmits(wt, target, prior);
    forall p | p in target && p in wt && wt[p].Folder? ensures Crosses(target, prior) {
      AboveMeans(prior, p);
    }
    forall p, q | p in target && q in prior && p < q ensures p in wt && wt[p].Folder? {
      assert Holds(wt, q, prior[q].bytes);
      assert q[..|p|] == p && p != [];
    }
  }

  lemma NestedSound(a: string, b: string, f: File)
    ensures Sound(map[[a] := Folder, [a, b] := Regular(f)])
  {
    assert [a, b][..1] == [a];
  }

  /** One file in one directory. */
  function Nested(a: string, b: string, f: File): Worktree {
    NestedSound(a, b, f);
    map[[a] := Folder, [a, b] := Regular(f)]
  }

  /** A directory outlives its files, so a state may be refused the place it once had. */
  lemma LeftoverDirectory(a: string, b: string, f: File) returns (before: Manifest, none: Manifest, after: Manifest)
    ensures before == map[[a, b] := f] && none == map[] && after == map[[a] := f]
    ensures HoldsAll(Nested(a, b, f), before) && OnlyFiles(Nested(a, b, f), before)
    ensures Clear(Nested(a, b, f), none, before)
    ensures !NothingInTheWay(Materialized(Nested(a, b, f), none, before), after, none)
  {
    before, none, after := map[[a, b] := f], map[], map[[a] := f];
    var wt := Nested(a, b, f);
    PresentIsReachable(wt, [a, b]);
    ReplacedAt(wt, none, before, [a]);
    var m := Materialized(wt, none, before);
    PresentIsReachable(m, [a]);
    assert TargetVerdict(m, [a], f, none) == Blocked;
  }

  /** A file of the target stands above an old path, or a directory of the target at one. */
  predicate Crossed(wt: Worktree, target: Manifest, prior: Manifest) {
    exists p, q :: p in target && q in prior && q !in target && CrossedAt(wt, p, q)
  }

  predicate CrossedAt(wt: Worktree, p: Path, q: Path) {
    (p < q && p in wt && !wt[p].Folder?) || (q < p && q in wt && wt[q].Folder?)
  }

  /**
   A crash anywhere can be finished: planning again meets no obstacle, exactly unless something already
   written stands against an old path, and it ends in the same worktree.
   */
  lemma ResumeAfterCrash(wt0: Worktree, wt: Worktree, target: Manifest, prior: Manifest)
    requires Clear(wt0, target, prior) && Midway(wt0, wt, target, prior)
    ensures NothingInTheWay(wt, target, prior) <==> !Crossed(wt, target, prior)
    ensures NothingInTheWay(wt, target, prior) ==> Materialized(wt, target, prior) == Materialized(wt0, target, prior)
  {
    if NothingInTheWay(wt, target, prior) {
      NotCrossed(wt, target, prior);
      SameEnd(wt0, wt, target, prior);
    } else if !Crossed(wt, target, prior) {
      ResumeClear(wt0, wt, target, prior);
      assert false;
    }
  }

  lemma NotCrossed(wt: Worktree, target: Manifest, prior: Manifest)
    requires NothingInTheWay(wt, target, prior)
    ensures !Crossed(wt, target, prior)
  {
    forall p, q | p in target && q in prior && q !in target ensures !CrossedAt(wt, p, q) {
      assert OldVerdict(wt, q, prior[q]) in {Write, Keep};
      if p < q {
        assert q[..|p|] == p && p != [];
      }
    }
  }

  lemma ResumeClear(wt0: Worktree, wt: Worktree, target: Manifest, prior: Manifest)
    requires Clear(wt0, target, prior) && Midway(wt0, wt, target, prior) && !Crossed(wt, target, prior)
    ensures NothingInTheWay(wt, target, prior)
  {
    forall p | p in target ensures TargetVerdict(wt, p, target[p], prior) in {Write, Keep} {
      ResumeTarget(wt0, wt, target, prior, p);
    }
    forall p | p in prior && p !in target ensures OldVerdict(wt, p, prior[p]) in {Write, Keep} {
      ResumeOld(wt0, wt, target, prior, p);
    }
  }

  lemma ResumeTarget(wt0: Worktree, wt: Worktree, target: Manifest, prior: Manifest, p: Path)
    requires Clear(wt0, target, prior) && Midway(wt0, wt, target, prior) && p in target
    ensures TargetVerdict(wt, p, target[p], prior) in {Write, Keep}
  {
    hide NothingInTheWay, Midway;
    forall k | 0 < k < |p| && p[..k] in wt ensures wt[p[..k]].Folder? {
      assert p[..k] < p;
      AboveMeans(target, p[..k]);
      AboveStays(wt0, wt, target, prior, p[..k]);
    }
    MidwayHere(wt0, wt, target, prior, p);
    AboveMeans(target, p);
    Unblocked(wt0, target, prior, p);
  }

  lemma MidwayHere(wt0: Worktree, wt: Worktree, target: Manifest, prior: Manifest, p: Path)
    requires Midway(wt0, wt, target, prior)
    ensures MidwayAt(wt0, wt, target, prior, p)
  {
  }

  lemma Unblocked(wt: Worktree, target: Manifest, prior: Manifest, p: Path)
    requires NothingInTheWay(wt, target, prior)
    ensures p in target ==> TargetVerdict(wt, p, target[p], prior) in {Write, Keep}
    ensures p in prior && p !in target ==> OldVerdict(wt, p, prior[p]) in {Write, Keep}
  {
  }

  /** A directory that the target needs is never anything else on the way. */
  lemma AboveStays(wt0: Worktree, wt: Worktree, target: Manifest, prior: Manifest, q: Path)
    requires Clear(wt0, target, prior) && Midway(wt0, wt, target, prior) && q in Above(target)
    ensures q in wt ==> wt[q].Folder?
  {
    hide NothingInTheWay, Midway;
    RoomAbove(wt0, target, prior, q);
    AboveMeans(target, q);
    MidwayHere(wt0, wt, target, prior, q);
  }

  lemma ResumeOld(wt0: Worktree, wt: Worktree, target: Manifest, prior: Manifest, p: Path)
    requires Clear(wt0, target, prior) && Midway(wt0, wt, target, prior) && !Crossed(wt, target, prior)
    requires p in prior && p !in target
    ensures OldVerdict(wt, p, prior[p]) in {Write, Keep}
  {
    hide NothingInTheWay, Midway;
    Unblocked(wt0, target, prior, p);
    MidwayHere(wt0, wt, target, prior, p);
    forall k | 0 < k < |p| && p[..k] in wt ensures wt[p[..k]].Folder? {
      OldStays(wt0, wt, target, prior, p, k);
    }
    if p in Above(target) {
      AboveMeans(target, p);
      var t :| t in target && p < t;
      assert !CrossedAt(wt, t, p);
    }
  }

  lemma OldStays(wt0: Worktree, wt: Worktree, target: Manifest, prior: Manifest, p: Path, k: nat)
    requires Clear(wt0, target, prior) && Midway(wt0, wt, target, prior) && !Crossed(wt, target, prior)
    requires p in prior && p !in target && 0 < k < |p| && p[..k] in wt
    ensures wt[p[..k]].Folder?
  {
    hide NothingInTheWay, Midway;
    var q := p[..k];
    assert q < p;
    Unblocked(wt0, target, prior, p);
    MidwayHere(wt0, wt, target, prior, q);
    assert q in target ==> !CrossedAt(wt, q, p);
  }

  /** Where materialization ends depends only on the paths it does not touch. */
  lemma SameEnd(wt0: Worktree, wt: Worktree, target: Manifest, prior: Manifest)
    requires Clear(wt0, target, prior) && Clear(wt, target, prior) && Midway(wt0, wt, target, prior)
    ensures Materialized(wt, target, prior) == Materialized(wt0, target, prior)
  {
    forall p ensures SameAt(Replaced(wt0, target, prior), Replaced(wt, target, prior), p) {
      SameEndAt(wt0, wt, target, prior, p);
    }
    SameEverywhere(Replaced(wt0, target, prior), Replaced(wt, target, prior));
  }

  lemma SameEndAt(wt0: Worktree, wt: Worktree, target: Manifest, prior: Manifest, p: Path)
    requires NothingInTheWay(wt0, target, prior) && Midway(wt0, wt, target, prior)
    ensures SameAt(Replaced(wt0, target, prior), Replaced(wt, target, prior), p)
  {
    hide NothingInTheWay, Midway, Replaced, Above;
    ReplacedAt(wt0, target, prior, p);
    ReplacedAt(wt, target, prior, p);
    MidwayHere(wt0, wt, target, prior, p);
    Unblocked(wt0, target, prior, p);
  }

  /** From a clean worktree nothing is ever crossed. */
  lemma CleanNeverCrossed(wt0: Worktree, wt: Worktree, target: Manifest, prior: Manifest)
    requires HoldsAll(wt0, prior) && NothingInTheWay(wt0, target, prior)
    ensures !Crossed(wt, target, prior)
  {
    forall p, q | p in target && q in prior ensures !(p < q) && !(q < p) {
      assert Holds(wt0, q, prior[q].bytes);
      RoomAt(wt0, target, prior, p);
      if p < q {
        InDirectory(wt0, p, q);
        assert false;
      }
      if q < p {
        AboveMeans(target, q);
        RoomAbove(wt0, target, prior, q);
        assert false;
      }
    }
  }

  // ----- the clean check, and finishing an interrupted materialization -----

  /** `require_clean` when resuming: a file already as the target has it, or already removed for it, is fine. */
  predicate CleanWhenResuming(wt: Worktree, base: Manifest, target: Manifest) {
    forall p :: p in base ==>
      if p !in wt then p !in target
      else Holds(wt, p, base[p].bytes) || (p in target && Holds(wt, p, target[p].bytes))
  }

  /** `branch switch`, as far as files go, while the marker is set: both checks pass and the target can be written. */
  predicate FilesAllowSwitch(wt: Worktree, base: Manifest, target: Manifest) {
    CleanWhenResuming(wt, base, target) && Clear(wt, target, base)
  }

  /** From every crash state of a clean start, no file stands against the marker's way out, which finishes the job. */
  lemma SwitchFinishes(wt0: Worktree, wt: Worktree, target: Manifest, prior: Manifest)
    requires HoldsAll(wt0, prior) && Clear(wt0, target, prior) && Midway(wt0, wt, target, prior)
    ensures FilesAllowSwitch(wt, prior, target)
    ensures Materialized(wt, target, prior) == Materialized(wt0, target, prior)
  {
    hide NothingInTheWay, Midway, Crossed;
    CleanNeverCrossed(wt0, wt, target, prior);
    ResumeAfterCrash(wt0, wt, target, prior);
    forall p | p in prior
      ensures if p !in wt then p !in target
              else Holds(wt, p, prior[p].bytes) || (p in target && Holds(wt, p, target[p].bytes))
    {
      MidwayHere(wt0, wt, target, prior, p);
      assert Holds(wt0, p, prior[p].bytes);
    }
  }

  /**
   With no record, the switch takes the new tip itself for the prior state. No file then stands against it
   exactly when the interrupted materialization had already put the target's bytes everywhere.
   */
  lemma SwitchWithoutRecord(wt: Worktree, target: Manifest)
    ensures FilesAllowSwitch(wt, target, target) <==> HoldsAll(wt, target)
  {
    if HoldsAll(wt, target) {
      forall p | p in target ensures TargetVerdict(wt, p, target[p], target) == Keep {
        assert Holds(wt, p, target[p].bytes);
        PresentIsReachable(wt, p);
      }
      forall p, q | p in target && q in target ensures !(p < q) {
        assert Holds(wt, p, target[p].bytes) && Holds(wt, q, target[q].bytes);
        NothingBelowFile(wt, p, q);
      }
    }
  }

  /** Nothing is left to do once the target is there. */
  lemma DoneAlready(wt: Worktree, target: Manifest)
    requires Matches(wt, target) && Clear(wt, target, target)
    ensures Materialized(wt, target, target) == wt
  {
    forall p ensures SameAt(Replaced(wt, target, target), wt, p) {
      ReplacedAt(wt, target, target, p);
      if p in Above(target) {
        AboveMeans(target, p);
        var t :| t in target && p < t;
        assert t[..|p|] == p;
      }
    }
    SameEverywhere(Replaced(wt, target, target), wt);
  }
}
