/**
 `sync seal` and `branch create` onto the current branch: clean check, marker, publication, then
 materialize or abandon, with an I/O error or a crash possible after every durable effect, and the way
 out that the marker names.

 `files` stands for replay: the files that a history of patches produces.
 */
module SyncSeal {
  import opened Bytes
  import opened Publication
  import opened Materialize
  import Seal

  type Replay = seq<PatchId> -> Manifest
  type Fold = Seal.Fold

  /**
   `queue` is the active queue, `owned` whether it belongs to the current branch. `record` is the worktree
   baseline record, `marker` the worktree-dirty marker of the current branch. `provisional` says that the
   worktree comes from a snapshot no replay has verified, `renames` that a rename is declared in it.
   */
  datatype Repo = Repo(
    cell: Cell, queue: seq<PatchId>, owned: bool, marker: bool, record: Option<Fold>, wt: Worktree,
    provisional: bool, renames: bool)

  /** The queued patches that count for the current branch. */
  function Own(r: Repo): seq<PatchId> {
    if r.owned then r.queue else []
  }

  /** `live_baseline_identity` of the current branch. */
  function Live(r: Repo): Fold {
    Seal.Fold(Seal.Target(r.cell), Own(r))
  }

  /** `compare_worktree_baseline`: there is a record, and it is not of the live state. */
  predicate Behind(r: Repo) {
    r.record.Some? && r.record.value != Live(r)
  }

  /**
   The state the worktree is judged against. Without a record it is the live one. With one it is the
   recorded block and as many queued patches as were recorded, taken from the queue as it is now.
   */
  function Judged(r: Repo): Fold {
    match r.record
    case None => Live(r)
    case Some(f) => Seal.Fold(f.baseline, if |f.queued| < |r.queue| then r.queue[..|f.queued|] else r.queue)
  }

  function TipFiles(files: Replay, c: Cell): Manifest {
    files(Seal.History(Seal.Target(c)))
  }

  function JudgedFiles(files: Replay, r: Repo): Manifest {
    files(Seal.Content(Judged(r)))
  }

  /** Every file has the bytes of the state it is judged against; its mode is not looked at. */
  predicate Clean(files: Replay, r: Repo) {
    HoldsAll(r.wt, JudgedFiles(files, r))
  }

  /**
   What the clean check compares with: without a record, history and the branch's own queue; with one, the
   history of its block and as much of the queue as it knows. Every file must be there with its bytes.
   */
  lemma CleanExactly(files: Replay, r: Repo, n: nat)
    requires r.record.Some? ==> n == if |r.record.value.queued| < |r.queue| then |r.record.value.queued| else |r.queue|
    requires r.record.None? ==> n == if r.owned then |r.queue| else 0
    ensures var base := if r.record.Some? then r.record.value.baseline else Seal.Target(r.cell);
      var m := files(Seal.History(base) + r.queue[..n]);
      Clean(files, r) <==> forall p :: p in m ==> p in r.wt && r.wt[p].Regular? && r.wt[p].file.bytes == m[p].bytes
  {
    assert r.queue[..|r.queue|] == r.queue;
  }

  predicate AtTip(files: Replay, r: Repo) {
    Matches(r.wt, files(Seal.Content(Live(r))))
  }

  /** What the marker is for: the worktree matches the tip, or the marker says it may not. */
  predicate Covered(files: Replay, r: Repo) {
    r.marker || AtTip(files, r)
  }

  /** With the marker clear, the clean check speaks the truth: nobody's untouched worktree looks edited. */
  predicate JudgedRight(files: Replay, r: Repo) {
    r.marker || Clean(files, r)
  }

  // ----- the batch of claims -----

  datatype ClaimVerdict = Foldable | Unfoldable | UntrustedSigner | MissingPatch

  /**
   A claim as the loop meets it: its still unsealed patches, what the checks say of it, the sealing key,
   and how many durable effects its publication gets before an I/O error.
   */
  datatype Claim = Claim(selected: seq<PatchId>, verdict: ClaimVerdict, key: KeyId, stop: nat)

  /** `seal_from_accepted_claim_impl`, in the order of its checks. */
  function ClaimTrace(c: Cell, queue: seq<PatchId>, claim: Claim): (t: Trace)
    ensures |t.states| >= 1 && t.states[0] == c
  {
    if !Settled(c) || claim.verdict == MissingPatch then Trace([c], false)
    else if claim.selected == [] then Trace([c], true)
    else if claim.verdict != Foldable || queue != [] || c.pointerTorn then Trace([c], false)
    else Publish(c, MakeRequest(SealedState(c.pointer, claim.selected), claim.key), false)
  }

  /** The claims that get as far as publishing. */
  predicate Publishes(c: Cell, queue: seq<PatchId>, claim: Claim) {
    Settled(c) && !c.pointerTorn && queue == [] && claim.selected != [] && claim.verdict == Foldable
  }

  function Reached(t: Trace, stop: nat): (cells: seq<Cell>)
    requires |t.states| >= 1
    ensures |cells| >= 1 && cells[0] == t.states[0] && cells[|cells| - 1] == Stopped(t, stop)
  {
    if stop < |t.states| then t.states[..stop + 1] else t.states
  }

  /** What a batch does: every cell it passes through, how many claims it sealed, whether one failed. */
  datatype Batch = Batch(cells: seq<Cell>, published: nat, failed: bool)

  function Last(b: Batch): Cell
    requires |b.cells| >= 1
  {
    b.cells[|b.cells| - 1]
  }

  /** The claim loop of `run_seal`: in order, stopping at the first failure, with no rollback. */
  function SealBatch(c: Cell, queue: seq<PatchId>, claims: seq<Claim>): (b: Batch)
    ensures |b.cells| >= 1 && b.cells[0] == c
    decreases |claims|
  {
    if claims == [] then Batch([c], 0, false)
    else
      var t := ClaimTrace(c, queue, claims[0]);
      var reached := Reached(t, claims[0].stop);
      if !Succeeded(t, claims[0].stop) then Batch(reached, 0, true)
      else
        Then(reached, if claims[0].selected == [] then 0 else 1,
             SealBatch(Stopped(t, claims[0].stop), queue, claims[1..]))
  }

  function Then(cells: seq<Cell>, published: nat, rest: Batch): (b: Batch)
    requires |cells| >= 1 && |rest.cells| >= 1 && cells[|cells| - 1] == rest.cells[0]
    ensures |b.cells| >= 1 && b.cells[0] == cells[0] && Last(b) == Last(rest)
  {
    Batch(cells + rest.cells[1..], published + rest.published, rest.failed)
  }

  lemma ThenThen(a: seq<Cell>, m: nat, b: seq<Cell>, n: nat, rest: Batch)
    requires |a| >= 1 && |b| >= 1 && |rest.cells| >= 1
    requires a[|a| - 1] == b[0] && b[|b| - 1] == rest.cells[0]
    ensures Then(a, m, Then(b, n, rest)) == Then(a + b[1..], m + n, rest)
  {
    assert (b + rest.cells[1..])[1..] == b[1..] + rest.cells[1..];
  }

  /** `simulate_seal_batch_target_manifest`: the history the batch is expected to reach, if any claim folds. */
  function Simulated(history: seq<PatchId>, claims: seq<Claim>, folded: Option<seq<PatchId>>): Option<seq<PatchId>>
    decreases |claims|
  {
    if claims == [] || (claims[0].selected != [] && claims[0].verdict == Unfoldable) then folded
    else
      var next := history + claims[0].selected;
      Simulated(next, claims[1..], Some(next))
  }

  method SimulateBatch(c: Cell, claims: seq<Claim>) returns (folded: Option<seq<PatchId>>)
    ensures folded == Expected(c, claims)
  {
    folded := None;
    var history := Seal.History(Seal.Target(c));
    assert claims[0..] == claims;
    for i := 0 to |claims|
      invariant Simulated(history, claims[i..], folded) == Expected(c, claims)
    {
      assert claims[i..][1..] == claims[i + 1..];
      if claims[i].selected != [] && claims[i].verdict == Unfoldable {
        return;
      }
      history := history + claims[i].selected;
      folded := Some(history);
    }
  }

  function Expected(c: Cell, claims: seq<Claim>): Option<seq<PatchId>> {
    Simulated(Seal.History(Seal.Target(c)), claims, None)
  }

  /** Every check before the marker: a verified worktree, no torn pointer entry, nothing changed, nothing in the way. */
  predicate Admitted(files: Replay, r: Repo, claims: seq<Claim>) {
    && !r.provisional && !r.cell.pointerTorn
    && Clean(files, r) && !r.renames
    && (Expected(r.cell, claims).Some? ==>
          NothingInTheWay(r.wt, files(Expected(r.cell, claims).value), JudgedFiles(files, r)))
  }

  // ----- every state a crash can leave -----

  function Recorded(c: Cell): Fold {
    Seal.Fold(Seal.Target(c), [])
  }

  function WithTipFiles(files: Replay, prior: Manifest, r: Repo): Repo
    requires Clear(r.wt, TipFiles(files, r.cell), prior)
  {
    r.(wt := Materialized(r.wt, TipFiles(files, r.cell), prior))
  }

  /** `materialize_after_publish` finished: files, then the record, then the marker. */
  function MaterializeDone(files: Replay, prior: Manifest, r: Repo): Repo
    requires Clear(r.wt, TipFiles(files, r.cell), prior)
  {
    WithTipFiles(files, prior, r).(record := Some(Recorded(r.cell)), marker := false)
  }

  /** Bringing the worktree of `r` to its tip: part way, complete, with the record emptied or rewritten, finished. */
  ghost predicate Materializing(files: Replay, prior: Manifest, r: Repo, h: Repo) {
    var target := TipFiles(files, r.cell);
    && NothingInTheWay(r.wt, target, prior)
    && (|| (h == r.(wt := h.wt) && Midway(r.wt, h.wt, target, prior))
        || (&& PrefixFree(target)
            && (|| h == WithTipFiles(files, prior, r)
                || h == WithTipFiles(files, prior, r).(record := None)
                || h == WithTipFiles(files, prior, r).(record := Some(Recorded(r.cell)))
                || h == MaterializeDone(files, prior, r))))
  }

  /** The repository with the batch published and the marker still set. */
  function Sealed(r: Repo, claims: seq<Claim>): Repo {
    r.(marker := true, cell := Last(SealBatch(r.cell, r.queue, claims)))
  }

  function Abandoned(r: Repo, claims: seq<Claim>): Repo {
    Sealed(r, claims).(marker := false)
  }

  /** Every state `sync seal` onto the current branch can be stopped in, by an error or by a crash. */
  ghost predicate BatchState(files: Replay, r: Repo, claims: seq<Claim>, h: Repo) {
    var b := SealBatch(r.cell, r.queue, claims);
    || h == r
    || (&& Admitted(files, r, claims) && claims != []
        && (|| (h.cell in b.cells && h == r.(marker := true, cell := h.cell))
            || (b.published > 0 && Materializing(files, JudgedFiles(files, r), Sealed(r, claims), h))
            || (b.published == 0 && h == Abandoned(r, claims))))
  }

  // ----- the batch on its own -----

  /** The patches a run of claims selects, in order. */
  function Selected(claims: seq<Claim>): seq<PatchId> {
    if claims == [] then [] else claims[0].selected + Selected(claims[1..])
  }

  /** The first claim with anything left to seal. */
  function FirstEffective(claims: seq<Claim>): Option<Claim>
    ensures FirstEffective(claims).Some? ==> FirstEffective(claims).value.selected != []
  {
    if claims == [] || claims[0].verdict == MissingPatch then None
    else if claims[0].selected != [] then Some(claims[0])
    else FirstEffective(claims[1..])
  }

  /**
   A publication of new patches: from the third state on it has the pointer, from the fifth on the record
   too, and only after the sixth, when both have been read back, does it count.
   */
  lemma ClaimPublishes(c: Cell, claim: Claim)
    requires Inv(c) && Publishes(c, [], claim)
    ensures var t := ClaimTrace(c, [], claim);
      var s := SealedState(c.pointer, claim.selected);
      && t.ok && |t.states| == 6
      && t.states[1] == c.(pointerTorn := true)
      && t.states[2] == c.(pointer := Some(s))
      && t.states[3] == c.(pointer := Some(s), tail := Some(MakeRequest(s, claim.key).update))
      && t.states[4] == c.(pointer := Some(s), log := c.log + [MakeRequest(s, claim.key).update])
      && t.states[5] == t.states[4]
      && (forall k :: 0 <= k < 6 ==> Inv(t.states[k])) && Settled(t.states[4])
  {
    LinkedSeq(c.log);
    var p := MakeRequest(SealedState(c.pointer, claim.selected), claim.key);
    NotTheLastRecord(c, p);
    forall k | 0 <= k < |Publish(c, p, false).states| ensures Inv(Publish(c, p, false).states[k]) {
      PublishKeepsInv(c, p, false, k);
    }
  }

  lemma ClaimIdles(c: Cell, queue: seq<PatchId>, claim: Claim)
    requires !Publishes(c, queue, claim)
    ensures ClaimTrace(c, queue, claim).states == [c]
    ensures ClaimTrace(c, queue, claim).ok <==> Settled(c) && claim.selected == [] && claim.verdict != MissingPatch
  {
  }

  predicate OpenPointer(c: Cell) {
    c.pointer.Some? && !c.pointer.value.closed
  }

  ghost predicate SameOrOpen(cells: seq<Cell>, c: Cell) {
    forall i :: 0 <= i < |cells| ==> cells[i].pointer == c.pointer || OpenPointer(cells[i])
  }

  /** What a claim does to a sound ref: the states of its publication, or nothing at all. */
  ghost predicate ClaimDoes(c: Cell, queue: seq<PatchId>, claim: Claim, t: Trace) {
    if Publishes(c, queue, claim) then
      var s := SealedState(c.pointer, claim.selected);
      && t.ok && |t.states| == 6 && t.states[0] == c && t.states[5] == t.states[4]
      && t.states[1].pointer == c.pointer
      && t.states[2].pointer == t.states[3].pointer == t.states[4].pointer == Some(s)
      && AllInv(t.states) && SameOrOpen(t.states, c) && Settled(t.states[4]) && !t.states[4].pointerTorn
      && |t.states[4].log| == |c.log| + 1
    else
      && t.states == [c]
      && (t.ok <==> Settled(c) && claim.selected == [] && claim.verdict != MissingPatch)
  }

  lemma ClaimDone(c: Cell, queue: seq<PatchId>, claim: Claim)
    requires Inv(c)
    ensures ClaimDoes(c, queue, claim, ClaimTrace(c, queue, claim))
  {
    if Publishes(c, queue, claim) {
      var t := ClaimTrace(c, queue, claim);
      ClaimPublishes(c, claim);
      assert t.states == [c, t.states[1], t.states[2], t.states[3], t.states[4], t.states[5]];
    } else {
      ClaimIdles(c, queue, claim);
    }
  }

  ghost predicate AllInv(cells: seq<Cell>) {
    forall i :: 0 <= i < |cells| ==> Inv(cells[i])
  }

  lemma ReachedKeepsInv(c: Cell, queue: seq<PatchId>, claim: Claim, t: Trace)
    requires Inv(c) && ClaimDoes(c, queue, claim, t)
    ensures AllInv(Reached(t, claim.stop))
  {
  }

  /** Every cell a batch passes through keeps the ref chain. */
  lemma {:induction false} BatchKeepsInv(c: Cell, queue: seq<PatchId>, claims: seq<Claim>)
    requires Inv(c)
    ensures AllInv(SealBatch(c, queue, claims).cells)
    decreases |claims|
  {
    if claims != [] {
      ClaimDone(c, queue, claims[0]);
      ReachedKeepsInv(c, queue, claims[0], ClaimTrace(c, queue, claims[0]));
      var next := Stopped(ClaimTrace(c, queue, claims[0]), claims[0].stop);
      BatchKeepsInv(next, queue, claims[1..]);
    }
  }

  /**
   Conservation: a batch that meets no failure extends the history by exactly its claims' patches, in
   order, and the log by one record per sealed claim.
   */
  lemma {:induction false} BatchConserves(c: Cell, queue: seq<PatchId>, claims: seq<Claim>)
    requires Inv(c) && Settled(c) && !SealBatch(c, queue, claims).failed
    ensures var b := SealBatch(c, queue, claims);
      && Seal.History(Seal.Target(Last(b))) == Seal.History(Seal.Target(c)) + Selected(claims)
      && |Last(b).log| == |c.log| + b.published
      && Settled(Last(b))
    decreases |claims|
  {
    if claims != [] {
      var next := Stopped(ClaimTrace(c, queue, claims[0]), claims[0].stop);
      ClaimDone(c, queue, claims[0]);
      ClaimConserves(c, queue, claims[0], ClaimTrace(c, queue, claims[0]));
      BatchConserves(next, queue, claims[1..]);
      Regroup(Seal.History(Seal.Target(c)), claims[0].selected, Selected(claims[1..]));
    }
  }

  lemma Regroup(a: seq<PatchId>, b: seq<PatchId>, c: seq<PatchId>)
    ensures a + (b + c) == (a + b) + c
  {
  }

  lemma ClaimConserves(c: Cell, queue: seq<PatchId>, claim: Claim, t: Trace)
    requires Inv(c) && Settled(c) && ClaimDoes(c, queue, claim, t) && Succeeded(t, claim.stop)
    ensures var next := Stopped(t, claim.stop);
      && Inv(next) && Settled(next) && (!c.pointerTorn ==> !next.pointerTorn)
      && Seal.History(Seal.Target(next)) == Seal.History(Seal.Target(c)) + claim.selected
      && |next.log| == |c.log| + if claim.selected == [] then 0 else 1
  {
  }

  /** A claim that is not refused where the pointer index is torn or not: an empty one is never looked at further. */
  predicate GoesThrough(torn: bool, queue: seq<PatchId>, claim: Claim) {
    claim.verdict != MissingPatch && (claim.selected == [] || (claim.verdict == Foldable && queue == [] && !torn))
  }

  function Effective(claims: seq<Claim>): nat {
    if claims == [] then 0 else (if claims[0].selected == [] then 0 else 1) + Effective(claims[1..])
  }

  /**
   Without I/O errors a batch seals exactly the claims before the first one that is refused, each of them
   that has anything to seal as one block, and fails exactly if one is refused.
   */
  lemma {:induction false} BatchExactly(c: Cell, queue: seq<PatchId>, claims: seq<Claim>, k: nat)
    requires Inv(c) && Settled(c) && k <= |claims| && forall i :: 0 <= i < k ==> claims[i].stop >= 5
    requires forall i :: 0 <= i < k ==> GoesThrough(c.pointerTorn, queue, claims[i])
    requires k < |claims| ==> !GoesThrough(c.pointerTorn, queue, claims[k])
    ensures var b := SealBatch(c, queue, claims);
      && (b.failed <==> k < |claims|) && b.published == Effective(claims[..k])
      && Seal.History(Seal.Target(Last(b))) == Seal.History(Seal.Target(c)) + Selected(claims[..k])
      && |Last(b).log| == |c.log| + b.published && Settled(Last(b))
    decreases k
  {
    hide ClaimTrace, SealBatch, Reached, ClaimDoes, GoesThrough, Settled, Inv;
    if claims == [] {
      BatchEndsToo(c, queue, claims);
    } else {
      var t := ClaimTrace(c, queue, claims[0]);
      ClaimDone(c, queue, claims[0]);
      var b, rest := BatchUnfolds(c, queue, claims, t);
      if k > 0 {
        var next := Stopped(t, claims[0].stop);
        PassedClaim(c, queue, claims[0], t);
        BatchExactly(next, queue, claims[1..], k - 1);
        assert claims[..k][1..] == claims[1..][..k - 1];
        Regroup(Seal.History(Seal.Target(c)), claims[0].selected, Selected(claims[..k][1..]));
      } else {
        RefusedClaim(c, queue, claims[0], t);
      }
    }
  }

  lemma PassedClaim(c: Cell, queue: seq<PatchId>, claim: Claim, t: Trace)
    requires Inv(c) && Settled(c) && ClaimDoes(c, queue, claim, t)
    requires GoesThrough(c.pointerTorn, queue, claim) && claim.stop >= 5
    ensures Succeeded(t, claim.stop)
    ensures var next := Stopped(t, claim.stop);
      && Inv(next) && Settled(next) && next.pointerTorn == c.pointerTorn
      && Seal.History(Seal.Target(next)) == Seal.History(Seal.Target(c)) + claim.selected
      && |next.log| == |c.log| + if claim.selected == [] then 0 else 1
  {
    ClaimConserves(c, queue, claim, t);
  }

  lemma RefusedClaim(c: Cell, queue: seq<PatchId>, claim: Claim, t: Trace)
    requires Settled(c) && ClaimDoes(c, queue, claim, t) && !GoesThrough(c.pointerTorn, queue, claim)
    ensures !t.ok && Reached(t, claim.stop) == [c]
  {
  }

  /** The simulation takes every claim before the first that does not fold, whoever signed it. */
  lemma {:induction false} SimulatedExactly(history: seq<PatchId>, claims: seq<Claim>, folded: Option<seq<PatchId>>,
                                            k: nat)
    requires k <= |claims|
    requires forall i :: 0 <= i < k ==> claims[i].selected == [] || claims[i].verdict != Unfoldable
    requires k < |claims| ==> claims[k].selected != [] && claims[k].verdict == Unfoldable
    ensures Simulated(history, claims, folded) == if k == 0 then folded else Some(history + Selected(claims[..k]))
    decreases k
  {
    if k > 0 {
      var next := history + claims[0].selected;
      SimulatedExactly(next, claims[1..], Some(next), k - 1);
      assert claims[..k][1..] == claims[1..][..k - 1];
      Regroup(history, claims[0].selected, Selected(claims[..k][1..]));
      if k == 1 { assert next == next + Selected(claims[..1][1..]); }
    }
  }

  /** The first real claim gets its pointer entry and then fails, before its record or after it. */
  predicate CutAfterPointer(r: Repo, claims: seq<Claim>) {
    var first := FirstEffective(claims);
    && Settled(r.cell) && !r.cell.pointerTorn && r.queue == []
    && first.Some? && first.value.verdict == Foldable && 2 <= first.value.stop < 5
  }

  /** A batch moves the tip without counting it exactly when its first real claim fails after its pointer entry. */
  lemma {:induction false} UncountedMove(r: Repo, claims: seq<Claim>)
    requires Inv(r.cell)
    ensures var b := SealBatch(r.cell, r.queue, claims);
      && (CutAfterPointer(r, claims) ==>
            && b.published == 0
            && Last(b).pointer == Some(SealedState(r.cell.pointer, FirstEffective(claims).value.selected)))
      && (b.published == 0 && !CutAfterPointer(r, claims) ==> Last(b).pointer == r.cell.pointer)
    decreases |claims|
  {
    hide ClaimTrace, SealBatch, Then, Reached, ClaimDoes;
    if claims == [] {
      BatchEndsToo(r.cell, r.queue, claims);
    } else {
      var t := ClaimTrace(r.cell, r.queue, claims[0]);
      ClaimDone(r.cell, r.queue, claims[0]);
      var b, rest := BatchUnfolds(r.cell, r.queue, claims, t);
      if Publishes(r.cell, r.queue, claims[0]) {
        CutBatch(r.cell, r.queue, claims[0], t, b, rest);
      } else {
        IdleBatch(r.cell, r.queue, claims[0], t, b, rest);
        IdleClaim(r.cell, r.queue, claims[0], t);
        UncountedMove(r, claims[1..]);
      }
    }
  }

  /** The simulation goes no further: no claim is left, or the next one does not fold. */
  predicate SimulationEnds(claims: seq<Claim>) {
    claims == [] || (claims[0].selected != [] && claims[0].verdict == Unfoldable)
  }

  lemma BatchEndsToo(c: Cell, queue: seq<PatchId>, claims: seq<Claim>)
    requires SimulationEnds(claims)
    ensures Last(SealBatch(c, queue, claims)) == c && SealBatch(c, queue, claims).published == 0
    ensures claims == [] ==> !SealBatch(c, queue, claims).failed
  {
  }

  lemma IdleClaim(c: Cell, queue: seq<PatchId>, claim: Claim, t: Trace)
    requires !Publishes(c, queue, claim) && ClaimDoes(c, queue, claim, t)
    ensures Stopped(t, claim.stop) == c
    ensures t.ok <==> Settled(c) && claim.selected == [] && claim.verdict != MissingPatch
  {
  }

  /** The claim loop's first turn. */
  lemma BatchUnfolds(c: Cell, queue: seq<PatchId>, claims: seq<Claim>, t: Trace) returns (b: Batch, rest: Batch)
    requires claims != [] && t == ClaimTrace(c, queue, claims[0])
    ensures b == SealBatch(c, queue, claims) && rest == SealBatch(Stopped(t, claims[0].stop), queue, claims[1..])
    ensures |rest.cells| >= 1 && rest.cells[0] == Stopped(t, claims[0].stop)
    ensures b == if Succeeded(t, claims[0].stop)
                 then Then(Reached(t, claims[0].stop), if claims[0].selected == [] then 0 else 1, rest)
                 else Batch(Reached(t, claims[0].stop), 0, true)
  {
    b := SealBatch(c, queue, claims);
    rest := SealBatch(Stopped(t, claims[0].stop), queue, claims[1..]);
  }

  lemma CutBatch(c: Cell, queue: seq<PatchId>, claim: Claim, t: Trace, b: Batch, rest: Batch)
    requires Publishes(c, queue, claim) && ClaimDoes(c, queue, claim, t)
    requires |rest.cells| >= 1 && rest.cells[0] == Stopped(t, claim.stop)
    requires b == if Succeeded(t, claim.stop) then Then(Reached(t, claim.stop), 1, rest)
                  else Batch(Reached(t, claim.stop), 0, true)
    ensures b.published == 0 <==> claim.stop < 5
    ensures claim.stop < 5 ==>
              Last(b).pointer == if claim.stop < 2 then c.pointer else Some(SealedState(c.pointer, claim.selected))
  {
  }

  lemma IdleBatch(c: Cell, queue: seq<PatchId>, claim: Claim, t: Trace, b: Batch, rest: Batch)
    requires !Publishes(c, queue, claim) && ClaimDoes(c, queue, claim, t)
    requires |rest.cells| >= 1 && rest.cells[0] == Stopped(t, claim.stop)
    requires b == if Succeeded(t, claim.stop) then Then(Reached(t, claim.stop), 0, rest)
                  else Batch(Reached(t, claim.stop), 0, true)
    ensures if t.ok then Last(b) == Last(rest) && b.published == rest.published else Last(b) == c && b.published == 0
  {
  }

  // ----- safety in every state -----

  /** The batch ends by clearing the marker over a worktree that does not hold the tip. */
  predicate Orphans(files: Replay, r: Repo, claims: seq<Claim>) {
    && claims != [] && SealBatch(r.cell, r.queue, claims).published == 0
    && !AtTip(files, Abandoned(r, claims))
  }

  lemma MaterializingCovered(files: Replay, prior: Manifest, r: Repo, h: Repo)
    requires r.marker && Own(r) == [] && Materializing(files, prior, r, h)
    ensures Covered(files, h) && JudgedRight(files, h)
  {
    if !h.marker { MaterializedMatches(r.wt, TipFiles(files, r.cell), prior); }
    assert Seal.Content(Recorded(r.cell)) == Seal.History(Seal.Target(r.cell));
  }

  /** A batch publishes nothing over a queue of local work. */
  lemma {:induction false} QueueBlocksPublishing(c: Cell, queue: seq<PatchId>, claims: seq<Claim>)
    requires queue != []
    ensures var b := SealBatch(c, queue, claims);
      b.published == 0 && Last(b) == c && forall x :: x in b.cells ==> x == c
    decreases |claims|
  {
    if claims != [] {
      QueueStopsClaim(c, queue, claims[0]);
      QueueBlocksPublishing(c, queue, claims[1..]);
      var rest := SealBatch(c, queue, claims[1..]);
      assert forall x :: x in rest.cells[1..] ==> x in rest.cells;
    }
  }

  lemma QueueStopsClaim(c: Cell, queue: seq<PatchId>, claim: Claim)
    requires queue != []
    ensures var t := ClaimTrace(c, queue, claim);
      && Reached(t, claim.stop) == [c] && Stopped(t, claim.stop) == c
      && (Succeeded(t, claim.stop) ==> claim.selected == [])
  {
    assert ClaimTrace(c, queue, claim).states == [c];
  }

  /** Every state a batch can be stopped in is covered, exactly unless the batch orphans its tip. */
  lemma CoveredUnlessOrphaned(files: Replay, r: Repo, claims: seq<Claim>)
    requires Covered(files, r) && Admitted(files, r, claims)
    ensures (forall h :: BatchState(files, r, claims, h) ==> Covered(files, h)) <==> !Orphans(files, r, claims)
  {
    if Orphans(files, r, claims) {
      assert BatchState(files, r, claims, Abandoned(r, claims));
    } else {
      forall h | BatchState(files, r, claims, h) ensures Covered(files, h) {
        StateCovered(files, r, claims, h);
      }
    }
  }

  lemma StateCovered(files: Replay, r: Repo, claims: seq<Claim>, h: Repo)
    requires Covered(files, r) && BatchState(files, r, claims, h) && !Orphans(files, r, claims)
    ensures Covered(files, h)
  {
    if !h.marker && h != r && SealBatch(r.cell, r.queue, claims).published > 0 {
      if r.queue != [] { QueueBlocksPublishing(r.cell, r.queue, claims); }
      MaterializingCovered(files, JudgedFiles(files, r), Sealed(r, claims), h);
    }
  }

  /**
   When the worktree was at its tip to begin with, a batch orphans its tip exactly when the first claim
   with anything to seal gets its pointer entry written, fails after that, and changes files.
   */
  lemma OrphansExactly(files: Replay, r: Repo, claims: seq<Claim>)
    requires Inv(r.cell) && AtTip(files, r)
    ensures Orphans(files, r, claims) <==>
              CutAfterPointer(r, claims) && !Matches(r.wt, CutFiles(files, r, claims))
  {
    UncountedMove(r, claims);
    var b := SealBatch(r.cell, r.queue, claims);
    if CutAfterPointer(r, claims) {
      var live := Live(Abandoned(r, claims));
      assert Seal.Content(live) == Seal.History(Seal.Target(r.cell)) + FirstEffective(claims).value.selected;
    } else if b.published == 0 {
      assert Live(Abandoned(r, claims)) == Live(r);
    }
  }

  /**
   With the marker clear the clean check is truthful in every state, exactly unless there is no record and
   the first claim with anything to seal gets its pointer entry written, fails after that, and changes bytes.
   */
  lemma JudgedRightExactly(files: Replay, r: Repo, claims: seq<Claim>)
    requires Admitted(files, r, claims) && Inv(r.cell) && claims != []
    ensures (forall h :: BatchState(files, r, claims, h) ==> JudgedRight(files, h)) <==>
              !(r.record.None? && CutAfterPointer(r, claims) && !HoldsAll(r.wt, CutFiles(files, r, claims)))
  {
    AbandonedJudged(files, r, claims);
    if r.record.None? && CutAfterPointer(r, claims) && !HoldsAll(r.wt, CutFiles(files, r, claims)) {
      UncountedMove(r, claims);
      assert BatchState(files, r, claims, Abandoned(r, claims));
    } else {
      forall h | BatchState(files, r, claims, h) ensures JudgedRight(files, h) {
        StateJudgedRight(files, r, claims, h);
      }
    }
  }

  /** The files of the tip that a cut first claim leaves behind. */
  function CutFiles(files: Replay, r: Repo, claims: seq<Claim>): Manifest
    requires CutAfterPointer(r, claims)
  {
    files(Seal.History(Seal.Target(r.cell)) + FirstEffective(claims).value.selected)
  }

  lemma AbandonedJudged(files: Replay, r: Repo, claims: seq<Claim>)
    requires Clean(files, r) && Inv(r.cell)
    ensures var h := Abandoned(r, claims);
      && (r.record.Some? ==> Clean(files, h))
      && (r.record.None? && CutAfterPointer(r, claims) ==>
            (Clean(files, h) <==> HoldsAll(r.wt, CutFiles(files, r, claims))))
      && (r.record.None? && !CutAfterPointer(r, claims) && SealBatch(r.cell, r.queue, claims).published == 0 ==>
            Clean(files, h))
  {
    hide SealBatch, HoldsAll;
    UncountedMove(r, claims);
    if CutAfterPointer(r, claims) {
      assert Seal.Content(Live(Abandoned(r, claims)))
          == Seal.History(Seal.Target(r.cell)) + FirstEffective(claims).value.selected;
    }
  }

  lemma StateJudgedRight(files: Replay, r: Repo, claims: seq<Claim>, h: Repo)
    requires Admitted(files, r, claims) && BatchState(files, r, claims, h)
    requires SealBatch(r.cell, r.queue, claims).published == 0 ==> Clean(files, Abandoned(r, claims))
    ensures JudgedRight(files, h)
  {
    if !h.marker && h != r && SealBatch(r.cell, r.queue, claims).published > 0 {
      if r.queue != [] { QueueBlocksPublishing(r.cell, r.queue, claims); }
      MaterializingCovered(files, JudgedFiles(files, r), Sealed(r, claims), h);
    }
  }

  // ----- the way out -----

  /** `branch switch` to the current branch takes it for an existing, open one. */
  predicate Opens(h: Repo) {
    if h.cell.pointer.None? then Behind(h) else !h.cell.pointer.value.closed
  }

  /** Nothing in the queue stands against the switch: no other branch's work, and none the record does not know. */
  predicate QueueAllowsSwitch(h: Repo) {
    h.queue == [] || (h.owned && !Behind(h))
  }

  /** Nothing but files can stand against the switch. */
  predicate SwitchAllowed(h: Repo) {
    !h.provisional && Opens(h) && QueueAllowsSwitch(h) && !h.renames
  }

  /** `branch switch` to the current branch goes through from a state with the marker set. */
  predicate WayOut(files: Replay, h: Repo) {
    SwitchAllowed(h) && FilesAllowSwitch(h.wt, JudgedFiles(files, h), TipFiles(files, h.cell))
  }

  /**
   From every marked state of a batch that began with a record, the switch goes through exactly when it is
   allowed from there, nothing in the original worktree is in the way of the tip now published, and that tip
   can be written at all. It then leaves the worktree that an uninterrupted run would have left.
   */
  lemma RecoveryWithRecord(files: Replay, r: Repo, claims: seq<Claim>, h: Repo)
    requires r.record.Some? && BatchState(files, r, claims, h) && h.marker && h != r
    ensures Recovers(files, r, h)
  {
    if h == r.(marker := true, cell := h.cell) {
      RecoveryUntouched(files, r, h);
    } else {
      if r.queue != [] { QueueBlocksPublishing(r.cell, r.queue, claims); }
      RecoveryMaterializing(files, r, Sealed(r, claims), h);
    }
  }

  /** Nothing in the worktree of `r` is in the way of the tip of `c`, and the tip can be written at all. */
  predicate Unobstructed(files: Replay, r: Repo, c: Cell) {
    Clear(r.wt, TipFiles(files, c), JudgedFiles(files, r))
  }

  /** What the way out does from `h`, a state on the way from `r`. */
  ghost predicate Recovers(files: Replay, r: Repo, h: Repo) {
    var target, prior := TipFiles(files, h.cell), JudgedFiles(files, r);
    && (WayOut(files, h) <==> SwitchAllowed(h) && Unobstructed(files, r, h.cell))
    && (WayOut(files, h) ==> Materialized(h.wt, target, JudgedFiles(files, h)) == Materialized(r.wt, target, prior))
  }

  lemma RecoveryUntouched(files: Replay, r: Repo, h: Repo)
    requires Clean(files, r) && r.record.Some? && h == r.(marker := true, cell := h.cell)
    ensures Recovers(files, r, h)
  {
    RecoveryMidway(r.wt, h.wt, TipFiles(files, h.cell), JudgedFiles(files, r));
  }

  lemma RecoveryMaterializing(files: Replay, r: Repo, sealed: Repo, h: Repo)
    requires Clean(files, r) && r.record.Some? && sealed == r.(marker := true, cell := sealed.cell) && Own(r) == []
    requires h.marker && Materializing(files, JudgedFiles(files, r), sealed, h)
    ensures Recovers(files, r, h)
  {
    hide Materialized, NothingInTheWay, FilesAllowSwitch, PrefixFree, Midway, HoldsAll, Sound;
    var target, prior := TipFiles(files, h.cell), JudgedFiles(files, r);
    if h.record == r.record {
      if h != sealed.(wt := h.wt) || !Midway(r.wt, h.wt, target, prior) {
        MaterializedMidway(r.wt, target, prior);
      }
      RecoveryMidway(r.wt, h.wt, target, prior);
    } else {
      RecordTouched(files, prior, sealed, h);
      CompleteAllowsSwitch(r.wt, target, prior);
    }
  }

  lemma RecoveryMidway(wt0: Worktree, wt: Worktree, target: Manifest, prior: Manifest)
    requires HoldsAll(wt0, prior) && Midway(wt0, wt, target, prior)
    requires NothingInTheWay(wt0, target, prior) || wt == wt0
    ensures FilesAllowSwitch(wt, prior, target) <==> Clear(wt0, target, prior)
    ensures FilesAllowSwitch(wt, prior, target) ==>
              Materialized(wt, target, prior) == Materialized(wt0, target, prior)
  {
    hide Materialized, NothingInTheWay, PrefixFree, Midway;
    if Clear(wt0, target, prior) { SwitchFinishes(wt0, wt, target, prior); }
  }

  /** Once the record has been touched, the files are complete and are judged against the new tip. */
  lemma RecordTouched(files: Replay, prior: Manifest, r: Repo, h: Repo)
    requires Own(r) == [] && h.marker && Materializing(files, prior, r, h) && h.record != r.record
    ensures h.cell == r.cell && Clear(r.wt, TipFiles(files, h.cell), prior)
    ensures h.wt == Materialized(r.wt, TipFiles(files, h.cell), prior)
    ensures JudgedFiles(files, h) == TipFiles(files, h.cell)
  {
    assert Seal.Content(Judged(h)) == Seal.History(Seal.Target(r.cell));
  }

  lemma CompleteAllowsSwitch(wt: Worktree, target: Manifest, prior: Manifest)
    requires Clear(wt, target, prior)
    ensures var done := Materialized(wt, target, prior);
      FilesAllowSwitch(done, target, target) && Materialized(done, target, target) == done
  {
    hide Materialized, NothingInTheWay, PrefixFree;
    var done := Materialized(wt, target, prior);
    MaterializedMatches(wt, target, prior);
    MatchesHolds(done, target);
    SwitchWithoutRecord(done, target);
    DoneAlready(done, target);
  }

  lemma MatchesHolds(wt: Worktree, m: Manifest)
    requires Matches(wt, m)
    ensures HoldsAll(wt, m)
  {
  }

  lemma ReachedSameOrOpen(c: Cell, queue: seq<PatchId>, claim: Claim, t: Trace)
    requires ClaimDoes(c, queue, claim, t)
    ensures SameOrOpen(Reached(t, claim.stop), c)
    ensures Succeeded(t, claim.stop) && claim.selected != [] ==> OpenPointer(Stopped(t, claim.stop))
  {
  }

  /** Wherever a batch moves the pointer, the branch is open. */
  lemma {:induction false} BatchSameOrOpen(c: Cell, queue: seq<PatchId>, claims: seq<Claim>)
    requires Inv(c)
    ensures var b := SealBatch(c, queue, claims);
      SameOrOpen(b.cells, c) && (b.published > 0 ==> OpenPointer(Last(b)))
    decreases |claims|
  {
    if claims != [] {
      var t := ClaimTrace(c, queue, claims[0]);
      ClaimDone(c, queue, claims[0]);
      ReachedSameOrOpen(c, queue, claims[0], t);
      ReachedKeepsInv(c, queue, claims[0], t);
      var next := Stopped(t, claims[0].stop);
      BatchSameOrOpen(next, queue, claims[1..]);
      assert Last(SealBatch(next, queue, claims[1..])) in SealBatch(next, queue, claims[1..]).cells;
    }
  }

  /** Where the way out is barred, it is barred by what the batch started from. */
  lemma BarredAtStart(files: Replay, r: Repo, claims: seq<Claim>, h: Repo)
    requires r.record.Some? && Inv(r.cell) && BatchState(files, r, claims, h) && h.marker && h != r && !SwitchAllowed(h)
    ensures !SwitchAllowed(r) && TipFiles(files, h.cell) == TipFiles(files, r.cell)
  {
    hide SealBatch, Materialized, NothingInTheWay, Midway;
    var b := SealBatch(r.cell, r.queue, claims);
    assert Last(b) in b.cells;
    BatchSameOrOpen(r.cell, r.queue, claims);
    if r.queue != [] { QueueBlocksPublishing(r.cell, r.queue, claims); }
    if h != r.(marker := true, cell := h.cell) {
      MaterializingKeeps(files, JudgedFiles(files, r), Sealed(r, claims), h);
    }
    BarredBefore(r, h);
  }

  /** What no step of these commands touches. */
  predicate SameAround(r: Repo, h: Repo) {
    h.queue == r.queue && h.owned == r.owned && h.provisional == r.provisional && h.renames == r.renames
  }

  lemma MaterializingKeeps(files: Replay, prior: Manifest, r: Repo, h: Repo)
    requires Materializing(files, prior, r, h)
    ensures h.cell == r.cell && SameAround(r, h)
  {
  }

  lemma BarredBefore(r: Repo, h: Repo)
    requires !SwitchAllowed(h) && SameAround(r, h) && !r.provisional && !r.renames
    requires r.queue != [] ==> h.cell == r.cell
    requires OpenPointer(h.cell) || (h.cell.pointer == r.cell.pointer && h.record == r.record)
    requires r.queue != [] ==> h.record == r.record
    ensures !SwitchAllowed(r) && h.cell.pointer == r.cell.pointer
  {
  }

  /**
   Every marked state of a batch with nothing in the way can be left by the switch, exactly when the state
   it started from could: an unborn branch in step with its record can not, nor one that is closed, nor a
   queue that the record does not know.
   */
  lemma RecoveryExactly(files: Replay, r: Repo, claims: seq<Claim>)
    requires r.record.Some? && Inv(r.cell) && !r.marker && Admitted(files, r, claims) && claims != []
    ensures (forall h :: BatchState(files, r, claims, h) && h.marker && h != r && Unobstructed(files, r, h.cell) ==>
                           WayOut(files, h))
            <==> (Unobstructed(files, r, r.cell) ==>
                    && (if r.cell.pointer.Some? then !r.cell.pointer.value.closed
                        else r.record != Some(Seal.Fold(None, if r.owned then r.queue else [])))
                    && (r.queue == [] || (r.owned && r.record == Some(Seal.Fold(Seal.Target(r.cell), r.queue)))))
  {
    var marked := r.(marker := true);
    assert r.cell in SealBatch(r.cell, r.queue, claims).cells by {
      assert SealBatch(r.cell, r.queue, claims).cells[0] == r.cell;
    }
    assert BatchState(files, r, claims, marked);
    RecoveryWithRecord(files, r, claims, marked);
    forall h | BatchState(files, r, claims, h) && h.marker && h != r
      ensures Recovers(files, r, h)
      ensures !SwitchAllowed(h) ==> !SwitchAllowed(r) && TipFiles(files, h.cell) == TipFiles(files, r.cell)
    {
      RecoveryWithRecord(files, r, claims, h);
      if !SwitchAllowed(h) {
        BarredAtStart(files, r, claims, h);
      }
    }
  }

  /** Without record and queue, only a published, open branch whose files are all in place lets the switch through. */
  lemma RecoveryWithoutRecord(files: Replay, h: Repo)
    requires h.record.None? && h.queue == [] && !h.provisional && !h.renames
    ensures WayOut(files, h) <==>
              OpenPointer(h.cell) && HoldsAll(h.wt, TipFiles(files, h.cell))
  {
    assert Seal.Content(Live(h)) == Seal.History(Seal.Target(h.cell));
    SwitchWithoutRecord(h.wt, TipFiles(files, h.cell));
  }

  /**
   `branch switch` itself clears the marker before it rewrites the record. Stopped in between, the
   worktree holds the tip, but the clean check still judges it by the old record, and so passes exactly
   when the tip kept the bytes of every file of the recorded state.
   */
  lemma SwitchRecordWindow(files: Replay, r: Repo)
    requires r.record.Some? && r.queue == [] && Clear(r.wt, TipFiles(files, r.cell), JudgedFiles(files, r))
    ensures var prior, target := JudgedFiles(files, r), TipFiles(files, r.cell);
      var h := WithTipFiles(files, prior, r).(marker := false);
      AtTip(files, h) && (Clean(files, h) <==> KeepsBytes(target, prior))
  {
    var prior, target := JudgedFiles(files, r), TipFiles(files, r.cell);
    MaterializedMatches(r.wt, target, prior);
    var h := WithTipFiles(files, prior, r).(marker := false);
    assert Seal.Content(Live(h)) == Seal.History(Seal.Target(r.cell));
    assert JudgedFiles(files, h) == prior;
    if Clean(files, h) {
      forall p | p in prior ensures p in target && target[p].bytes == prior[p].bytes {
        assert Holds(h.wt, p, prior[p].bytes);
      }
    }
  }

  /** Every file of `before` is still there with the same bytes. */
  predicate KeepsBytes(after: Manifest, before: Manifest) {
    forall p :: p in before ==> p in after && after[p].bytes == before[p].bytes
  }

  /**
   A record made over a queue that has since been drained, as a retried seal leaves it, is judged by its block
   alone. The untouched worktree then passes the clean check exactly when the drained patches kept the bytes of
   every file of that block.
   */
  lemma DrainedRecordJudged(files: Replay, r: Repo)
    requires r.record.Some? && r.queue == []
    requires var held := files(Seal.Content(r.record.value)); HoldsAll(r.wt, held) && OnlyFiles(r.wt, held)
    ensures var base, held := files(Seal.History(r.record.value.baseline)), files(Seal.Content(r.record.value));
      Clean(files, r) <==> KeepsBytes(held, base)
  {
    var base, held := files(Seal.History(r.record.value.baseline)), files(Seal.Content(r.record.value));
    assert Seal.Content(Judged(r)) == Seal.History(r.record.value.baseline);
    if Clean(files, r) {
      forall p | p in base ensures p in held && held[p].bytes == base[p].bytes {
        assert Holds(r.wt, p, base[p].bytes);
      }
    }
  }

  // ----- the pre-write check -----

  /** Claims whose every refusal the simulation sees too, and whose publications meet no I/O error. */
  predicate Foreseen(claims: seq<Claim>) {
    forall i :: 0 <= i < |claims| ==> claims[i].verdict in {Foldable, Unfoldable} && claims[i].stop >= 5
  }

  lemma {:induction false} SimulationAgrees(c: Cell, claims: seq<Claim>, folded: Option<seq<PatchId>>)
    requires Inv(c) && Settled(c) && !c.pointerTorn && Foreseen(claims)
    ensures Simulated(Seal.History(Seal.Target(c)), claims, folded) ==
            if SimulationEnds(claims) then folded else Some(Seal.History(Seal.Target(Last(SealBatch(c, [], claims)))))
    decreases |claims|
  {
    if !SimulationEnds(claims) {
      var t := ClaimTrace(c, [], claims[0]);
      var next := Stopped(t, claims[0].stop);
      ClaimDone(c, [], claims[0]);
      ForeseenStep(c, claims[0], t);
      var b, rest := BatchUnfolds(c, [], claims, t);
      SimulationAgrees(next, claims[1..], Some(Seal.History(Seal.Target(next))));
      if SimulationEnds(claims[1..]) { BatchEndsToo(next, [], claims[1..]); }
    }
  }

  lemma ForeseenStep(c: Cell, claim: Claim, t: Trace)
    requires Inv(c) && Settled(c) && !c.pointerTorn && ClaimDoes(c, [], claim, t)
    requires claim.stop >= 5 && claim.verdict != MissingPatch && (claim.selected == [] || claim.verdict == Foldable)
    ensures Succeeded(t, claim.stop)
    ensures var next := Stopped(t, claim.stop);
      && Inv(next) && Settled(next) && !next.pointerTorn
      && Seal.History(Seal.Target(next)) == Seal.History(Seal.Target(c)) + claim.selected
  {
    ClaimConserves(c, [], claim, t);
  }

  /** When the simulation saw everything, what is published is never refused by the worktree afterwards. */
  lemma PrecheckSuffices(files: Replay, r: Repo, claims: seq<Claim>)
    requires Admitted(files, r, claims) && Inv(r.cell) && Settled(r.cell) && Foreseen(claims)
    requires SealBatch(r.cell, r.queue, claims).published > 0
    ensures NothingInTheWay(r.wt, TipFiles(files, Sealed(r, claims).cell), JudgedFiles(files, r))
  {
    if r.queue != [] { QueueBlocksPublishing(r.cell, r.queue, claims); }
    SimulationAgrees(r.cell, claims, None);
  }

  // ----- concrete runs -----

  /** One file, whose bytes tell the last patch. */
  function Latest(history: seq<PatchId>): Manifest {
    if history == [] then map[] else map[["file"] := File([history[|history| - 1] % 256], 420)]
  }

  /** One file that no patch ever changes. */
  function Constant(history: seq<PatchId>): Manifest {
    if history == [] then map[] else map[["file"] := File([], 420)]
  }

  /** Even patches leave the file `a`, odd ones the file `a/b`. */
  function Turning(history: seq<PatchId>): Manifest {
    if history == [] then map[]
    else if history[|history| - 1] % 2 == 0 then map[["a"] := File([], 420)]
    else map[["a", "b"] := File([], 420)]
  }

  /** A state with a file below a file. */
  function Conflicting(history: seq<PatchId>): Manifest {
    if history == [] then map[] else map[["a"] := File([], 420), ["a", "b"] := File([], 420)]
  }

  lemma OneSound(name: string, f: File)
    ensures Sound(map[[name] := Regular(f)])
  {
  }

  /** A worktree with one file. */
  function One(name: string, f: File): Worktree {
    OneSound(name, f);
    map[[name] := Regular(f)]
  }

  /** In a worktree without directories, a target of one file at the top is in the way only of what differs. */
  lemma OneClear(name: string, f: File, target: Manifest, prior: Manifest)
    requires prior == map[] || (prior.Keys == {[name]} && prior[[name]].bytes == f.bytes)
    requires target == map[] || (target.Keys == {[name]} && (prior != map[] || target[[name]].bytes == f.bytes))
    ensures Clear(One(name, f), target, prior)
  {
    PresentIsReachable(One(name, f), [name]);
  }

  /** What `init` leaves: no history, no files, and a record of just that. */
  const FRESH := Repo(UNPUBLISHED, [], false, false, Some(Seal.Fold(None, [])), map[], false, false)

  /** A branch at the block `b`, published once. */
  function Published(b: Block, record: Option<Fold>, wt: Worktree): Repo {
    Repo(Seal.CutShort(b).cell, [], false, false, record, wt, false, false)
  }

  function Patch(n: PatchId): Block {
    Block(None, [n])
  }

  lemma PublishedHistory(n: PatchId)
    ensures Inv(Seal.CutShort(Patch(n)).cell) && Settled(Seal.CutShort(Patch(n)).cell)
    ensures Seal.History(Some(Patch(n))) == [n]
  {
    Seal.CutShortSound(Patch(n));
  }

  /** One claim on its own, stopped where it says. */
  lemma OneClaim(c: Cell, claim: Claim)
    requires Inv(c) && Publishes(c, [], claim)
    ensures var b, s := SealBatch(c, [], [claim]), SealedState(c.pointer, claim.selected);
      && (claim.stop >= 5 ==> b.published == 1 && Last(b).pointer == Some(s))
      && (2 <= claim.stop < 5 ==> b.published == 0 && Last(b).pointer == Some(s))
      && Last(b) in b.cells && c in b.cells
  {
    hide ClaimTrace;
    var t := ClaimTrace(c, [], claim);
    ClaimDone(c, [], claim);
    assert [claim][1..] == [];
    var b, rest := BatchUnfolds(c, [], [claim], t);
    CutBatch(c, [], claim, t, b, rest);
    assert rest == Batch([Stopped(t, claim.stop)], 0, false);
    assert b.cells[0] == c;
  }

  lemma ExpectedOne(c: Cell, claim: Claim)
    requires claim.verdict == Foldable
    ensures Expected(c, [claim]) == Some(Seal.History(Seal.Target(c)) + claim.selected)
  {
    assert [claim][1..] == [];
    var next := Seal.History(Seal.Target(c)) + claim.selected;
    assert Simulated(next, [], Some(next)) == Some(next);
  }

  lemma ExpectedTwo(c: Cell, a: Claim, b: Claim)
    requires a.verdict == b.verdict == Foldable
    ensures Expected(c, [a, b]) == Some(Seal.History(Seal.Target(c)) + a.selected + b.selected)
  {
    assert [a, b][1..] == [b] && [b][1..] == [];
    var next := Seal.History(Seal.Target(c)) + a.selected;
    assert Simulated(next, [b], Some(next)) == Simulated(next + b.selected, [], Some(next + b.selected));
  }

  /** A clean, covered, recorded repository whose batch ends with the marker clear and the tip not in the worktree. */
  lemma OrphanReached() returns (r: Repo, claims: seq<Claim>)
    ensures Covered(Latest, r) && Admitted(Latest, r, claims) && r.record == Some(Live(r)) && Inv(r.cell)
    ensures BatchState(Latest, r, claims, Abandoned(r, claims))
    ensures !Covered(Latest, Abandoned(r, claims))
  {
    hide SealBatch;
    r := FRESH;
    claims := [Claim([7], Foldable, 1, 2)];
    assert Seal.Content(Judged(r)) == [];
    OneClaim(r.cell, claims[0]);
    assert Seal.Content(Live(Abandoned(r, claims))) == [7];
    assert ["file"] in Latest([7]);
  }

  /** A worktree at patch `n`, in step with its branch. */
  function At(n: PatchId, record: Option<Fold>): Repo {
    Published(Patch(n), record, One("file", File([n % 256], 420)))
  }

  predicate InStep(n: PatchId, record: Option<Fold>) {
    record.None? || record.value == Seal.Fold(Some(Patch(n)), [])
  }

  lemma AtInStep(n: PatchId, record: Option<Fold>)
    requires InStep(n, record)
    ensures var r := At(n, record);
      && Clean(Latest, r) && AtTip(Latest, r) && Inv(r.cell) && Settled(r.cell) && OpenPointer(r.cell)
      && JudgedFiles(Latest, r) == Latest([n]) && Seal.History(Seal.Target(r.cell)) == [n]
  {
    OneMatches(n);
    hide HoldsAll, Matches, Latest, One;
    PublishedHistory(n);
    assert Seal.Content(Judged(At(n, record))) == [n] == Seal.Content(Live(At(n, record)));
  }

  lemma OneMatches(n: PatchId)
    ensures var wt := One("file", File([n % 256], 420)); HoldsAll(wt, Latest([n])) && Matches(wt, Latest([n]))
  {
  }

  /** The file of the next patch can replace this one, and is not this one. */
  lemma AtClear(n: PatchId, m: PatchId, record: Option<Fold>)
    requires n % 256 != m % 256
    ensures var wt := At(n, record).wt;
      Clear(wt, Latest([n]), Latest([n])) && Clear(wt, Latest([n, m]), Latest([n])) && !HoldsAll(wt, Latest([n, m]))
  {
    OneClear("file", File([n % 256], 420), Latest([n, m]), Latest([n]));
    OneClear("file", File([n % 256], 420), Latest([n]), Latest([n]));
    assert !Holds(At(n, record).wt, ["file"], Latest([n, m])[["file"]].bytes);
  }

  lemma AtAdmits(n: PatchId, m: PatchId, record: Option<Fold>, claim: Claim)
    requires InStep(n, record) && n % 256 != m % 256 && claim.selected == [m] && claim.verdict == Foldable
    ensures Admitted(Latest, At(n, record), [claim])
  {
    hide HoldsAll, NothingInTheWay, PrefixFree, Simulated, Latest, One, Matches;
    AtInStep(n, record);
    AtClear(n, m, record);
    ExpectedOne(At(n, record).cell, claim);
    assert [n] + [m] == [n, m];
  }

  lemma {:induction false} NextHistory(b: Block, s: RefState, patches: seq<PatchId>)
    requires s.target == b
    ensures Seal.History(Some(SealedState(Some(s), patches).target)) == Seal.History(Some(b)) + patches
  {
  }

  lemma AtSeals(n: PatchId, m: PatchId, record: Option<Fold>, claim: Claim)
    requires InStep(n, record) && claim.selected == [m] && claim.verdict == Foldable && claim.stop >= 2
    ensures var r := At(n, record);
      var b := SealBatch(r.cell, [], [claim]);
      && Last(b) in b.cells && r.cell in b.cells && (b.published == 0 <==> claim.stop < 5)
      && OpenPointer(Last(b)) && TipFiles(Latest, Last(b)) == Latest([n, m])
  {
    hide HoldsAll, SealBatch, Latest, One, Matches;
    AtInStep(n, record);
    OneClaim(At(n, record).cell, claim);
    NextHistory(Patch(n), At(n, record).cell.pointer.value, [m]);
    assert [n] + [m] == [n, m];
  }

  /** Without a record the same leaves a worktree that the clean check takes for edited. */
  lemma OrphanMisjudged() returns (r: Repo, claims: seq<Claim>)
    ensures Covered(Latest, r) && Admitted(Latest, r, claims) && r.record.None? && Inv(r.cell)
    ensures BatchState(Latest, r, claims, Abandoned(r, claims)) && !JudgedRight(Latest, Abandoned(r, claims))
  {
    hide SealBatch, HoldsAll, Clear, Admitted, Latest, One, Matches;
    r, claims := At(5, None), [Claim([7], Foldable, 1, 2)];
    AtInStep(5, None);
    AtClear(5, 7, None);
    AtAdmits(5, 7, None, claims[0]);
    AtSeals(5, 7, None, claims[0]);
    assert Seal.Content(Live(Abandoned(r, claims))) == Seal.History(Seal.Target(Abandoned(r, claims).cell));
  }

  /** On a branch fresh from `init`, a stop between marker and pointer entry leaves a marker whose way out refuses. */
  lemma FreshBranchStuck() returns (claims: seq<Claim>, h: Repo)
    ensures Admitted(Latest, FRESH, claims) && BatchState(Latest, FRESH, claims, h) && h.marker
    ensures Unobstructed(Latest, h, h.cell) && !WayOut(Latest, h)
  {
    claims := [Claim([7], Foldable, 1, 5)];
    h := FRESH.(marker := true);
    assert Seal.Content(Judged(FRESH)) == [];
    assert h.cell == SealBatch(FRESH.cell, [], claims).cells[0];
  }

  /** So does a stop over a queued patch that the record does not know, as `rollback-draft` leaves it. */
  lemma UnrecordedQueueStuck() returns (r: Repo, claims: seq<Claim>, h: Repo)
    ensures Admitted(Latest, r, claims) && Inv(r.cell) && BatchState(Latest, r, claims, h) && h.marker
    ensures OpenPointer(h.cell)
    ensures Unobstructed(Latest, h, h.cell) && !WayOut(Latest, h)
  {
    hide SealBatch, HoldsAll, Clear, NothingInTheWay, Simulated, Latest, One, Matches;
    var record := Some(Seal.Fold(Some(Patch(5)), []));
    r, claims := At(5, record).(queue := [9], owned := true), [Claim([7], Foldable, 1, 5)];
    h := r.(marker := true);
    AtInStep(5, record);
    AtClear(5, 7, record);
    AtAdmits(5, 7, record, claims[0]);
    assert Judged(r) == Judged(At(5, record));
    assert SealBatch(r.cell, r.queue, claims).cells[0] == h.cell;
  }

  /** Without a record, a batch stopped before it writes a file leaves a marker whose own way out refuses. */
  lemma UnrecordedStuck() returns (r: Repo, claims: seq<Claim>, h: Repo)
    ensures Admitted(Latest, r, claims) && Inv(r.cell) && BatchState(Latest, r, claims, h) && h.marker
    ensures Unobstructed(Latest, r, h.cell) && SwitchAllowed(h) && !WayOut(Latest, h)
  {
    hide SealBatch, HoldsAll, Clear, NothingInTheWay, Simulated, FilesAllowSwitch, Latest, One, Matches;
    r, claims := At(5, None), [Claim([7], Foldable, 1, 5)];
    h := Sealed(r, claims);
    AtInStep(5, None);
    AtClear(5, 7, None);
    AtAdmits(5, 7, None, claims[0]);
    AtSeals(5, 7, None, claims[0]);
    RecoveryWithoutRecord(Latest, h);
  }

  /** A switch stopped between marker and record leaves a worktree at its tip that looks edited. */
  lemma RecordWindowReached() returns (r: Repo)
    ensures Clean(Latest, r) && Clear(r.wt, TipFiles(Latest, r.cell), JudgedFiles(Latest, r))
    ensures var h := WithTipFiles(Latest, JudgedFiles(Latest, r), r).(marker := false);
      AtTip(Latest, h) && !Clean(Latest, h)
  {
    hide SealBatch, Simulated, NothingInTheWay, PrefixFree, Materialized;
    r := Published(Patch(7), Some(Seal.Fold(Some(Patch(5)), [])), One("file", File([5], 420)));
    PublishedHistory(5);
    PublishedHistory(7);
    assert Seal.Content(Judged(r)) == [5];
    OneClear("file", File([5], 420), Latest([7]), Latest([5]));
    SwitchRecordWindow(Latest, r);
    assert Latest([7])[["file"]].bytes != Latest([5])[["file"]].bytes;
  }

  /** A retried seal leaves a worktree at its tip that looks edited. */
  lemma DrainedRecordMisjudged() returns (w: Seal.World, r: Repo)
    ensures w == Seal.Last(Seal.Seal(Seal.Interrupted(), 0).states) && Seal.Seal(Seal.Interrupted(), 0).ok
    ensures r.cell == w.cell && r.queue == w.queue == [] && r.record == w.record
    ensures AtTip(Latest, r) && !Clean(Latest, r)
  {
    hide Seal.Seal;
    w := Seal.Last(Seal.Seal(Seal.Interrupted(), 0).states);
    Seal.InterruptedRetry();
    r := Repo(w.cell, [], false, false, w.record, One("file", File([7], 420)), false, false);
    assert Seal.Content(Live(r)) == [5, 7];
    assert Seal.Content(Judged(r)) == [5] by {
      assert Seal.History(Some(Patch(5))) == [5];
    }
    assert !Holds(r.wt, ["file"], Latest([5])[["file"]].bytes);
  }

  /** A file the user made private is admitted, and comes out of the run with the mode of the tip. */
  lemma ModeResetReached() returns (r: Repo, claims: seq<Claim>)
    ensures Admitted(Constant, r, claims) && Inv(r.cell) && r.record == Some(Live(r))
    ensures r.wt == One("file", File([], 384)) && Unobstructed(Constant, r, Sealed(r, claims).cell)
    ensures var end := MaterializeDone(Constant, JudgedFiles(Constant, r), Sealed(r, claims));
      BatchState(Constant, r, claims, end) && ["file"] in end.wt && end.wt[["file"]] == Regular(File([], 420))
  {
    hide SealBatch, Simulated, NothingInTheWay, PrefixFree, Materialized;
    r := Published(Patch(5), Some(Seal.Fold(Some(Patch(5)), [])), One("file", File([], 384)));
    claims := [Claim([7], Foldable, 1, 5)];
    PublishedHistory(5);
    assert Seal.Content(Judged(r)) == [5];
    ExpectedOne(r.cell, claims[0]);
    OneClear("file", File([], 384), Constant([5, 7]), Constant([5]));
    OneClaim(r.cell, claims[0]);
    assert TipFiles(Constant, Sealed(r, claims).cell) == Constant([5, 7]);
    MaterializedMatches(r.wt, Constant([5, 7]), Constant([5]));
  }

  /** A worktree at patch 6, all in step. */
  function AtSix(): Repo {
    Published(Patch(6), Some(Seal.Fold(Some(Patch(6)), [])), One("a", File([], 420)))
  }

  lemma AtSixInStep()
    ensures var r := AtSix();
      && Clean(Turning, r) && AtTip(Turning, r) && r.record == Some(Live(r)) && Inv(r.cell) && Settled(r.cell)
      && JudgedFiles(Turning, r) == Turning([6]) && Seal.History(Seal.Target(r.cell)) == [6]
  {
    PublishedHistory(6);
    assert Seal.Content(Judged(AtSix())) == [6] == Seal.Content(Live(AtSix()));
  }

  lemma NoRoomBelowFile(prior: Manifest)
    ensures !NothingInTheWay(One("a", File([], 420)), Turning([6, 7]), prior)
  {
    assert ["a", "b"][..1] == ["a"];
    assert TargetVerdict(One("a", File([], 420)), ["a", "b"], File([], 420), prior) == Stuck;
    assert ["a", "b"] in Turning([6, 7]);
  }

  /** Replacing a tracked file by a directory of that name is refused over a clean worktree. */
  lemma FileToDirectoryRefused()
    ensures var r := AtSix(); Clean(Turning, r) && AtTip(Turning, r) && r.record == Some(Live(r)) && Inv(r.cell)
    ensures !Admitted(Turning, AtSix(), [Claim([7], Foldable, 1, 5)])
  {
    hide NothingInTheWay, Simulated;
    AtSixInStep();
    ExpectedOne(AtSix().cell, Claim([7], Foldable, 1, 5));
    NoRoomBelowFile(Turning([6]));
  }

  /**
   Followed by a claim that turns it back, it is admitted, since only the last state is checked. When that
   second claim fails, a tip is published that neither the run nor the switch can bring into the worktree.
   */
  lemma FileToDirectoryStuck() returns (claims: seq<Claim>, h: Repo)
    ensures Covered(Turning, AtSix()) && Admitted(Turning, AtSix(), claims)
    ensures BatchState(Turning, AtSix(), claims, h) && h == Sealed(AtSix(), claims) && h.marker
    ensures SealBatch(AtSix().cell, AtSix().queue, claims).published == 1
    ensures SwitchAllowed(h) && !Unobstructed(Turning, AtSix(), h.cell) && !WayOut(Turning, h)
  {
    hide SealBatch, Simulated, NothingInTheWay, PrefixFree, HoldsAll, Matches, Admitted, Turning, One;
    claims := [Claim([7], Foldable, 1, 5), Claim([8], Foldable, 1, 0)];
    AtSixInStep();
    TurnedBackAdmits(claims[0], claims[1]);
    SecondCut(AtSix().cell, claims[0], claims[1]);
    h := Sealed(AtSix(), claims);
    NextHistory(Patch(6), AtSix().cell.pointer.value, [7]);
    assert [6] + [7] == [6, 7];
    NoRoomBelowFile(Turning([6]));
    NoRoomBelowFile(JudgedFiles(Turning, h));
  }

  lemma TurnedBackAdmits(first: Claim, second: Claim)
    requires first.selected == [7] && second.selected == [8] && first.verdict == second.verdict == Foldable
    ensures Admitted(Turning, AtSix(), [first, second])
  {
    OneClear("a", File([], 420), Turning([6, 7, 8]), Turning([6]));
    hide HoldsAll, NothingInTheWay, PrefixFree, Simulated, Turning, One, Matches;
    AtSixInStep();
    ExpectedTwo(AtSix().cell, first, second);
    assert [6] + [7] + [8] == [6, 7, 8];
  }

  /** A claim that is sealed, and one after it that is not begun. */
  lemma SecondCut(c: Cell, first: Claim, second: Claim)
    requires Inv(c) && Publishes(c, [], first) && first.stop >= 5 && second.stop == 0
    requires second.selected != [] && second.verdict == Foldable
    ensures var b := SealBatch(c, [], [first, second]);
      b.published == 1 && Last(b).pointer == Some(SealedState(c.pointer, first.selected)) && Last(b) in b.cells
  {
    hide ClaimTrace, SealBatch;
    var t := ClaimTrace(c, [], first);
    ClaimDone(c, [], first);
    assert [first, second][1..] == [second];
    var b, rest := BatchUnfolds(c, [], [first, second], t);
    var next := Stopped(t, first.stop);
    var u := ClaimTrace(next, [], second);
    ClaimDone(next, [], second);
    var b', rest' := BatchUnfolds(next, [], [second], u);
    assert rest == b' && b' == Batch(Reached(u, 0), 0, true);
    assert Last(b) == next;
  }

  /** A tip with a file below a file passes every check before it is published, and can never be materialized. */
  lemma UnwritableTipPublished() returns (claims: seq<Claim>)
    ensures Admitted(Conflicting, FRESH, claims) && Foreseen(claims)
    ensures var b := SealBatch(FRESH.cell, FRESH.queue, claims); b.published == 1
    ensures forall h: Repo :: h.cell == Sealed(FRESH, claims).cell ==> !WayOut(Conflicting, h)
  {
    claims := [Claim([7], Foldable, 1, 5)];
    assert Seal.Content(Judged(FRESH)) == [];
    ExpectedOne(FRESH.cell, claims[0]);
    OneClaim(FRESH.cell, claims[0]);
    assert TipFiles(Conflicting, Sealed(FRESH, claims).cell) == Conflicting([7]);
    assert ["a"] in Conflicting([7]) && ["a", "b"] in Conflicting([7]) && ["a"] < ["a", "b"];
  }

  // ----- the commands -----

  datatype Result = Done | Refused | MarkFailed | ClaimFailed | PublishFailed | AbandonFailed | MaterializeFailed

  /** What one claim did: the cells it reached and whether it succeeded. */
  ghost predicate Ran(c: Cell, queue: seq<PatchId>, claim: Claim, reached: seq<Cell>, ok: bool) {
    var t := ClaimTrace(c, queue, claim);
    reached == Reached(t, claim.stop) && ok == Succeeded(t, claim.stop)
  }

  /** Splits the batch that is left into its first claim and the rest. */
  lemma FirstOfBatch(c: Cell, queue: seq<PatchId>, claims: seq<Claim>, reached: seq<Cell>, ok: bool, left: Batch)
    returns (next: Batch)
    requires claims != [] && left == SealBatch(c, queue, claims) && Ran(c, queue, claims[0], reached, ok)
    ensures |reached| >= 1 && |next.cells| >= 1
    ensures ok ==> reached[|reached| - 1] == next.cells[0]
                   && next == SealBatch(reached[|reached| - 1], queue, claims[1..])
    ensures left == if ok then Then(reached, if claims[0].selected == [] then 0 else 1, next)
                    else Batch(reached, 0, true)
  {
    hide ClaimTrace;
    next := SealBatch(reached[|reached| - 1], queue, claims[1..]);
  }

  /** What one claim did, added to what was done before it. */
  lemma Turned(batch: Batch, cells: seq<Cell>, published: nat, left: Batch, reached: seq<Cell>, ok: bool, n: nat,
               next: Batch)
    requires |cells| >= 1 && |reached| >= 1 && reached[0] == cells[|cells| - 1]
    requires |left.cells| >= 1 && left.cells[0] == cells[|cells| - 1] && batch == Then(cells, published, left)
    requires |next.cells| >= 1 && (ok ==> next.cells[0] == reached[|reached| - 1])
    requires left == if ok then Then(reached, n, next) else Batch(reached, 0, true)
    ensures var more := cells + reached[1..];
      && more[|more| - 1] == reached[|reached| - 1]
      && (ok ==> batch == Then(more, published + n, next))
      && (!ok ==> batch == Batch(more, published, true))
  {
    if ok {
      ThenThen(cells, published, reached, n, next);
    }
  }

  /** One turn of the claim loop, seen from the whole batch. */
  lemma TurnOfBatch(c: Cell, queue: seq<PatchId>, claims: seq<Claim>, batch: Batch, cells: seq<Cell>, published: nat,
                    left: Batch, reached: seq<Cell>, ok: bool, n: nat) returns (next: Batch)
    requires claims != [] && left == SealBatch(c, queue, claims) && Ran(c, queue, claims[0], reached, ok)
    requires |cells| >= 1 && cells[|cells| - 1] == c && |reached| >= 1 && reached[0] == c
    requires |left.cells| >= 1 && left.cells[0] == c && batch == Then(cells, published, left)
    requires n == if claims[0].selected == [] then 0 else 1
    ensures var more := cells + reached[1..];
      && more[|more| - 1] == reached[|reached| - 1]
      && (ok ==> && next == SealBatch(reached[|reached| - 1], queue, claims[1..])
                 && |next.cells| >= 1 && next.cells[0] == reached[|reached| - 1]
                 && batch == Then(more, published + n, next))
      && (!ok ==> batch == Batch(more, published, true))
  {
    next := FirstOfBatch(c, queue, claims, reached, ok, left);
    Turned(batch, cells, published, left, reached, ok, n, next);
  }

  /** A batch with nothing left is what was reached. */
  lemma BatchOver(batch: Batch, cells: seq<Cell>, published: nat, left: Batch, c: Cell, queue: seq<PatchId>,
                  rest: seq<Claim>)
    requires rest == [] && left == SealBatch(c, queue, rest)
    requires |cells| >= 1 && cells[|cells| - 1] == c && batch == Then(cells, published, left)
    ensures batch == Batch(cells, published, false)
  {
  }

  /** Every state in `history` is one of `before`, or `start` with one of `cells`. */
  ghost predicate Within(history: seq<Repo>, before: seq<Repo>, start: Repo, cells: seq<Cell>) {
    forall h :: h in history ==> h in before || (h.cell in cells && h == start.(cell := h.cell))
  }

  lemma Passing(before: seq<Repo>, r: Repo, cells: seq<Cell>, states: seq<Repo>)
    requires |states| == |cells| >= 1 && forall i :: 0 <= i < |cells| ==> states[i] == r.(cell := cells[i])
    ensures Within(before + states, before, r, cells)
    ensures (before + states)[|before + states| - 1] == r.(cell := cells[|cells| - 1])
  {
  }

  lemma WithinTrans(h0: seq<Repo>, h1: seq<Repo>, h2: seq<Repo>, start: Repo, r: Repo, cells: seq<Cell>,
                    reached: seq<Cell>)
    requires Within(h1, h0, start, cells) && Within(h2, h1, r, reached) && r == start.(cell := r.cell)
    requires |cells| >= 1 && |reached| >= 1 && reached[0] == cells[|cells| - 1]
    ensures Within(h2, h0, start, cells + reached[1..])
  {
    assert reached == [cells[|cells| - 1]] + reached[1..];
    forall h | h in h2 ensures h in h0 || (h.cell in cells + reached[1..] && h == start.(cell := h.cell)) {
      if h in h1 { assert h in h0 || h.cell in cells; }
    }
  }

  /** The checks of `run_create`, the pre-write check of the new tip's files included. */
  predicate CreateAdmitted(files: Replay, r: Repo, target: Block) {
    && r.cell.pointer.None? && r.cell.log == [] && Own(r) == []
    && Clean(files, r) && !r.renames
    && NothingInTheWay(r.wt, files(Seal.History(Some(target))), JudgedFiles(files, r))
  }

  /** Another branch's queue counts for nothing; a branch with a queue of its own can not be created. */
  lemma ForeignQueue(files: Replay, r: Repo, target: Block)
    requires r.record.None?
    ensures !r.owned ==> (Clean(files, r) <==> Clean(files, r.(queue := [])))
    ensures !r.owned ==> (CreateAdmitted(files, r, target) <==> CreateAdmitted(files, r.(queue := []), target))
    ensures r.owned && r.queue != [] ==> !CreateAdmitted(files, r, target)
  {
  }

  lemma BatchHistory(files: Replay, r: Repo, claims: seq<Claim>, marked: seq<Repo>, history: seq<Repo>)
    requires Admitted(files, r, claims) && claims != [] && marked == [r, r.(marker := true)]
    requires Within(history, marked, r.(marker := true), SealBatch(r.cell, r.queue, claims).cells)
    ensures forall h :: h in history ==> BatchState(files, r, claims, h)
  {
    var b := SealBatch(r.cell, r.queue, claims);
    assert b.cells[0] in b.cells;
  }

  /** `branch create` onto an unborn current branch: every state it can be stopped in. */
  ghost predicate CreateState(files: Replay, r: Repo, target: Block, key: KeyId, stop: nat, h: Repo) {
    var t := Create(r.cell, target, key);
    var published := r.(marker := true, cell := Stopped(t, stop));
    || h == r
    || (&& CreateAdmitted(files, r, target)
        && (|| (h.cell in Reached(t, stop) && h == r.(marker := true, cell := h.cell))
            || (Succeeded(t, stop) && Materializing(files, JudgedFiles(files, r), published, h))))
  }

  /** A create never clears the marker over a failed publication: every state is covered and truthful. */
  lemma CreateCovered(files: Replay, r: Repo, target: Block, key: KeyId, stop: nat, h: Repo)
    requires Covered(files, r) && JudgedRight(files, r)
    requires CreateState(files, r, target, key, stop, h)
    ensures Covered(files, h) && JudgedRight(files, h)
  {
    if !h.marker && h != r {
      var published := r.(marker := true, cell := Stopped(Create(r.cell, target, key), stop));
      MaterializingCovered(files, JudgedFiles(files, r), published, h);
    }
  }

  /** The way out of a stopped create, judged like that of a batch. */
  lemma CreateRecovery(files: Replay, r: Repo, target: Block, key: KeyId, stop: nat, h: Repo)
    requires r.record.Some? && CreateState(files, r, target, key, stop, h) && h.marker && h != r
    ensures Recovers(files, r, h)
  {
    if h == r.(marker := true, cell := h.cell) {
      RecoveryUntouched(files, r, h);
    } else {
      RecoveryMaterializing(files, r, r.(marker := true, cell := Stopped(Create(r.cell, target, key), stop)), h);
    }
  }

  /**
   On a branch in step with its record, a stopped create can be finished by the switch exactly once its
   pointer entry is in, if the tip can be written at all; and never over a worktree that is still provisional,
   which only the switch minds.
   */
  lemma CreateStuckBeforePointer(files: Replay, r: Repo, target: Block, key: KeyId, stop: nat, h: Repo)
    requires r.record == Some(Live(r)) && r.queue == []
    requires CreateState(files, r, target, key, stop, h) && h.marker && h != r
    ensures WayOut(files, h) <==>
              h.cell.pointer.Some? && !r.provisional && PrefixFree(files(Seal.History(Some(target))))
  {
    CreateRecovery(files, r, target, key, stop, h);
    CreateShape(files, r, target, key, stop, h);
    CreateOpens(files, r, target, h);
  }

  lemma CreateShape(files: Replay, r: Repo, target: Block, key: KeyId, stop: nat, h: Repo)
    requires CreateState(files, r, target, key, stop, h) && h.marker && h != r
    ensures CreateAdmitted(files, r, target) && SameAround(r, h)
    ensures h.cell.pointer.None? ==> h.record == r.record
    ensures h.cell.pointer.Some? ==> OpenPointer(h.cell) && h.cell.pointer.value.target == target
  {
    CreatePointers(r.cell, target, key, stop);
    if h != r.(marker := true, cell := h.cell) {
      var published := r.(marker := true, cell := Stopped(Create(r.cell, target, key), stop));
      MaterializingKeeps(files, JudgedFiles(files, r), published, h);
    }
  }

  lemma {:induction false} CreateOpens(files: Replay, r: Repo, target: Block, h: Repo)
    requires r.record == Some(Live(r)) && CreateAdmitted(files, r, target) && h.queue == []
    requires SameAround(r, h) && (h.cell.pointer.None? ==> h.record == r.record)
    requires h.cell.pointer.Some? ==> OpenPointer(h.cell) && h.cell.pointer.value.target == target
    ensures SwitchAllowed(h) <==> h.cell.pointer.Some? && !r.provisional
    ensures h.cell.pointer.Some? ==>
              (Unobstructed(files, r, h.cell) <==> PrefixFree(files(Seal.History(Some(target)))))
  {
  }

  lemma CreatePointers(c: Cell, target: Block, key: KeyId, stop: nat)
    ensures forall x :: x in Reached(Create(c, target, key), stop) ==>
              x.pointer == c.pointer || (OpenPointer(x) && x.pointer.value.target == target)
    ensures Succeeded(Create(c, target, key), stop) ==> Stopped(Create(c, target, key), stop).pointer.Some?
  {
    hide Publish;
    if c.pointer.None? && c.log == [] {
      var p := MakeRequest(RefState(target, 1, None, false), key);
      var t := Publish(c, p, false);
      forall k | 0 <= k < |t.states| ensures t.states[k].pointer == c.pointer || t.states[k].pointer == Some(p.state) {
        PublishPasses(c, p, false, k);
      }
      if t.ok {
        PublishedIsSettled(c, p, false);
      }
    }
  }

  lemma PartWay(files: Replay, prior: Manifest, r: Repo, wt: Worktree)
    requires NothingInTheWay(r.wt, TipFiles(files, r.cell), prior) && Midway(r.wt, wt, TipFiles(files, r.cell), prior)
    ensures Materializing(files, prior, r, r.(wt := wt))
  {
  }

  /** The steps after the files: the record emptied, rewritten, the marker cleared. */
  lemma AfterFiles(files: Replay, prior: Manifest, r: Repo)
    requires Clear(r.wt, TipFiles(files, r.cell), prior)
    ensures var done := WithTipFiles(files, prior, r);
      && Materializing(files, prior, r, done.(record := None))
      && Materializing(files, prior, r, done.(record := Some(Recorded(r.cell))))
      && Materializing(files, prior, r, MaterializeDone(files, prior, r))
  {
  }

  /** The producing commands. `effects` bounds the marker, worktree and record writes. */
  class Producer {
    var repo: Repo
    var effects: nat
    ghost var history: seq<Repo>

    constructor (repo: Repo, effects: nat)
      ensures Valid() && this.repo == repo && this.effects == effects && history == [repo]
    {
      this.repo := repo;
      this.effects := effects;
      history := [repo];
    }

    ghost predicate Valid()
      reads this
    {
      history != [] && history[|history| - 1] == repo
    }

    method Write(next: Repo) returns (ok: bool)
      requires Valid()
      modifies this
      ensures Valid()
      ensures ok <==> old(effects) > 0
      ensures repo == if ok then next else old(repo)
      ensures history == if ok then old(history) + [next] else old(history)
      ensures !ok ==> effects == 0
    {
      if effects == 0 {
        return false;
      }
      effects := effects - 1;
      repo := next;
      history := history + [next];
      ok := true;
    }

    /** `publish_with_object_store`, cut short after `stop` steps. */
    method PublishInto(p: Request, stop: nat, ghost reached: seq<Cell>) returns (ok: bool)
      requires Valid() && reached == Reached(Publish(repo.cell, p, false), stop)
      modifies this
      ensures ok == Succeeded(Publish(old(repo).cell, p, false), stop)
      ensures repo == old(repo).(cell := reached[|reached| - 1]) && Within(history, old(history), old(repo), reached)
      ensures Valid() && effects == old(effects)
    {
      hide Publish;
      var store := new RefStore(repo.cell, stop);
      ok := store.PublishBody(p, false);
      ghost var from := repo;
      ghost var passed := Lift(reached, (c: Cell) => from.(cell := c));
      Passing(history, from, reached, passed);
      history := history + passed;
      repo := repo.(cell := store.cell);
    }

    /** `seal_from_accepted_claim_in_batch` */
    method SealClaim(claim: Claim) returns (ok: bool, ghost reached: seq<Cell>)
      requires Valid()
      modifies this
      ensures Ran(old(repo).cell, old(repo).queue, claim, reached, ok)
      ensures |reached| >= 1 && reached[0] == old(repo).cell && repo == old(repo).(cell := reached[|reached| - 1])
      ensures Within(history, old(history), old(repo), reached)
      ensures Valid() && effects == old(effects)
    {
      reached := Reached(ClaimTrace(repo.cell, repo.queue, claim), claim.stop);
      if !Settled(repo.cell) || claim.verdict == MissingPatch {
        return false, reached;
      }
      if claim.selected == [] {
        return true, reached;
      }
      if claim.verdict != Foldable || repo.queue != [] || repo.cell.pointerTorn {
        return false, reached;
      }
      ok := PublishInto(MakeRequest(SealedState(repo.cell.pointer, claim.selected), claim.key), claim.stop, reached);
    }

    /** Where the claim loop stands: `cells` reached, `left` what the claims in `rest` will do. */
    ghost predicate Midst(start: Repo, before: seq<Repo>, rest: seq<Claim>, cells: seq<Cell>, left: Batch)
      reads this
    {
      && Valid() && repo == start.(cell := repo.cell)
      && |cells| >= 1 && repo.cell == cells[|cells| - 1]
      && Within(history, before, start, cells)
      && left == SealBatch(repo.cell, start.queue, rest)
    }

    /** One turn of the loop of `run_seal`: the claim, and the count of what was published. */
    method SealTurn(rest: seq<Claim>, published: nat, ghost start: Repo, ghost before: seq<Repo>,
                    ghost batch: Batch, ghost cells: seq<Cell>, ghost left: Batch)
      returns (ok: bool, count: nat, ghost more: seq<Cell>, ghost next: Batch)
      requires rest != [] && Midst(start, before, rest, cells, left)
      requires |left.cells| >= 1 && left.cells[0] == cells[|cells| - 1] && batch == Then(cells, published, left)
      modifies this
      ensures effects == old(effects)
      ensures ok ==> Midst(start, before, rest[1..], more, next)
      ensures ok ==> |next.cells| >= 1 && next.cells[0] == more[|more| - 1] && batch == Then(more, count, next)
      ensures !ok ==> Valid() && repo == start.(cell := Last(batch)) && Within(history, before, start, batch.cells)
      ensures !ok ==> batch.published == count && batch.failed
    {
      hide SealBatch, ClaimTrace;
      ghost var reached;
      ok, reached := SealClaim(rest[0]);
      var n := if rest[0].selected == [] then 0 else 1;
      count := if ok then published + n else published;
      more := cells + reached[1..];
      next := TurnOfBatch(old(repo).cell, old(repo).queue, rest, batch, cells, published, left, reached, ok, n);
      WithinTrans(before, old(history), history, start, old(repo), cells, reached);
    }

    /** The loop of `run_seal`. */
    method SealClaims(claims: seq<Claim>) returns (published: nat, failed: bool)
      requires Valid()
      modifies this
      ensures var b := SealBatch(old(repo).cell, old(repo).queue, claims);
        && published == b.published && failed == b.failed && repo == old(repo).(cell := Last(b))
        && Within(history, old(history), old(repo), b.cells)
      ensures Valid() && effects == old(effects)
    {
      published, failed := 0, false;
      var rest := claims;
      ghost var start, before := repo, history;
      ghost var batch := SealBatch(repo.cell, repo.queue, claims);
      ghost var left, cells := batch, [repo.cell];
      while rest != []
        invariant Midst(start, before, rest, cells, left) && effects == old(effects)
        invariant |left.cells| >= 1 && left.cells[0] == cells[|cells| - 1] && batch == Then(cells, published, left)
        decreases |rest|
      {
        var ok;
        ok, published, cells, left := SealTurn(rest, published, start, before, batch, cells, left);
        if !ok {
          failed := true;
          return;
        }
        rest := rest[1..];
      }
      BatchOver(batch, cells, published, left, repo.cell, start.queue, rest);
    }

    ghost predicate AllIn(before: seq<Repo>, files: Replay, prior: Manifest, r: Repo)
      reads this
    {
      forall h :: h in history ==> h in before || Materializing(files, prior, r, h)
    }

    /** One durable effect after another on the worktree. */
    method Follow(files: Replay, prior: Manifest, trace: seq<Worktree>) returns (ok: bool)
      requires Valid() && NothingInTheWay(repo.wt, TipFiles(files, repo.cell), prior)
      requires AllMidway(trace, repo.wt, TipFiles(files, repo.cell), prior)
      modifies this
      ensures Valid() && AllIn(old(history), files, prior, old(repo))
      ensures repo == old(repo).(wt := repo.wt)
      ensures if ok then EndsIn(old(repo).wt, trace, repo.wt) else effects == 0
    {
      hide Midway, NothingInTheWay, Materializing, Sound;
      ghost var target := TipFiles(files, repo.cell);
      for i := 0 to |trace|
        invariant Valid() && AllIn(old(history), files, prior, old(repo))
        invariant repo == old(repo).(wt := if i == 0 then old(repo).wt else trace[i - 1])
      {
        assert Midway(old(repo).wt, trace[i], target, prior);
        PartWay(files, prior, old(repo), trace[i]);
        ok := Write(repo.(wt := trace[i]));
        if !ok { return; }
      }
      ok := true;
    }

    /** `apply_materialization_plan`, effect by effect. */
    method ApplyPlan(files: Replay, prior: Manifest, plan: Plan) returns (ok: bool)
      requires Valid() && PlanFor(plan, repo.wt, TipFiles(files, repo.cell), prior) && plan.inTheWay == []
      modifies this
      ensures Valid() && AllIn(old(history), files, prior, old(repo))
      ensures repo == old(repo).(wt := repo.wt)
      ensures ok ==> Clear(old(repo).wt, TipFiles(files, old(repo).cell), prior)
                     && repo == WithTipFiles(files, prior, old(repo))
      ensures !ok ==> effects == 0 || !PrefixFree(TipFiles(files, old(repo).cell))
    {
      hide Materialized, Midway, NothingInTheWay, PrefixFree, Materializing, Sound;
      var fits, wt, trace := Apply(repo.wt, plan, TipFiles(files, repo.cell), prior);
      ok := Follow(files, prior, trace);
      ok := ok && fits;
    }

    /** The record, emptied first and then written, and after it the marker. */
    method RecordAndUnmark(record: Fold) returns (ok: bool)
      requires Valid() && repo.marker
      modifies this
      ensures Valid()
      ensures ok ==> repo == old(repo).(record := Some(record), marker := false)
      ensures !ok ==> repo.marker && repo.cell == old(repo).cell && effects == 0
      ensures forall h :: h in history ==>
                || h in old(history)
                || h == old(repo).(record := None)
                || h == old(repo).(record := Some(record))
                || h == old(repo).(record := Some(record), marker := false)
    {
      ok := Write(repo.(record := None));
      if !ok { return; }
      ok := Write(repo.(record := Some(record)));
      if !ok { return; }
      ok := Write(repo.(marker := false));
    }

    /** `materialize_after_publish` */
    method MaterializeTip(files: Replay, prior: Manifest) returns (ok: bool)
      requires Valid() && repo.marker
      modifies this
      ensures Valid() && AllIn(old(history), files, prior, old(repo))
      ensures ok ==> Clear(old(repo).wt, TipFiles(files, old(repo).cell), prior)
                     && repo == MaterializeDone(files, prior, old(repo))
      ensures !ok ==> repo.marker && repo.cell == old(repo).cell
      ensures Clear(old(repo).wt, TipFiles(files, old(repo).cell), prior) ==> ok || effects == 0
      ensures !NothingInTheWay(old(repo).wt, TipFiles(files, old(repo).cell), prior) ==> repo == old(repo)
    {
      var target := TipFiles(files, repo.cell);
      hide Materialized, Midway, NothingInTheWay, PrefixFree, Materializing;
      var plan := PlanMaterialization(repo.wt, target, prior);
      if plan.None? || plan.value.inTheWay != [] {
        return false;
      }
      if Clear(repo.wt, target, prior) { AfterFiles(files, prior, repo); }
      ok := ApplyPlan(files, prior, plan.value);
      if !ok { return; }
      ok := RecordAndUnmark(Recorded(repo.cell));
    }

    /** Everything `run_seal` checks between taking the lock and setting the marker. */
    method Admit(files: Replay, claims: seq<Claim>) returns (ok: bool)
      ensures ok <==> Admitted(files, repo, claims)
    {
      if repo.provisional || repo.cell.pointerTorn || !Clean(files, repo) || repo.renames {
        return false;
      }
      var expected := SimulateBatch(repo.cell, claims);
      if expected.None? {
        return true;
      }
      var target, prior := files(expected.value), JudgedFiles(files, repo);
      hide NothingInTheWay;
      var plan := PlanMaterialization(repo.wt, target, prior);
      ok := plan.Some? && plan.value.inTheWay == [];
    }

    /** After the batch: abandon when nothing was counted, else materialize. */
    method Conclude(files: Replay, prior: Manifest, published: nat, failed: bool) returns (result: Result)
      requires Valid() && repo.marker
      modifies this
      ensures Valid()
      ensures forall h :: h in history ==>
                || h in old(history)
                || (published == 0 && h == old(repo).(marker := false))
                || (published > 0 && Materializing(files, prior, old(repo), h))
      ensures result in {Done, ClaimFailed, AbandonFailed, MaterializeFailed}
      ensures result in {Done, ClaimFailed} ==>
                && (result == ClaimFailed <==> failed)
                && (published == 0 ==> repo == old(repo).(marker := false))
                && (published > 0 ==> Clear(old(repo).wt, TipFiles(files, old(repo).cell), prior)
                                      && repo == MaterializeDone(files, prior, old(repo)))
      ensures result in {AbandonFailed, MaterializeFailed} ==> repo.marker
      ensures result == AbandonFailed ==> effects == 0
      ensures result == MaterializeFailed && effects > 0 ==>
                published > 0 && !Clear(old(repo).wt, TipFiles(files, old(repo).cell), prior)
    {
      var ok;
      if published == 0 {
        ok := Write(repo.(marker := false));
        if !ok {
          return AbandonFailed;
        }
      } else {
        ok := MaterializeTip(files, prior);
        if !ok {
          return MaterializeFailed;
        }
      }
      result := if failed then ClaimFailed else Done;
    }

    /** `run_seal` onto the current branch, with at least one claim. */
    method SealOntoCurrent(files: Replay, claims: seq<Claim>) returns (result: Result)
      requires history == [repo] && claims != []
      modifies this
      ensures Valid() && forall h :: h in history ==> BatchState(files, old(repo), claims, h)
      ensures result == Refused <==> !Admitted(files, old(repo), claims)
      ensures result == Refused ==> repo == old(repo)
      ensures repo.marker && !old(repo).marker ==> result in {AbandonFailed, MaterializeFailed}
      ensures result in {MarkFailed, AbandonFailed} ==> effects == 0
      ensures result in {Done, ClaimFailed, MarkFailed, AbandonFailed, MaterializeFailed, Refused}
      ensures result == MaterializeFailed && effects > 0 ==>
                !Unobstructed(files, old(repo), Sealed(old(repo), claims).cell)
      ensures result == MaterializeFailed && effects > 0 && Foreseen(claims)
              && Inv(old(repo).cell) && Settled(old(repo).cell) ==>
                !PrefixFree(TipFiles(files, Sealed(old(repo), claims).cell))
      ensures var b := SealBatch(old(repo).cell, old(repo).queue, claims);
        result in {Done, ClaimFailed} ==>
          && (result == ClaimFailed <==> b.failed)
          && (b.published == 0 ==> repo == Abandoned(old(repo), claims))
          && (b.published > 0 ==>
                && Unobstructed(files, old(repo), Sealed(old(repo), claims).cell)
                && repo == MaterializeDone(files, JudgedFiles(files, old(repo)), Sealed(old(repo), claims)))
    {
      ghost var start := repo;
      var admitted := Admit(files, claims);
      if !admitted {
        return Refused;
      }
      var prior := JudgedFiles(files, repo);
      var ok := Write(repo.(marker := true));
      if !ok {
        return MarkFailed;
      }
      ghost var marked := history;
      var published, failed := SealClaims(claims);
      BatchHistory(files, start, claims, marked, history);
      if published > 0 && Inv(start.cell) && Settled(start.cell) && Foreseen(claims) {
        PrecheckSuffices(files, start, claims);
      }
      result := Conclude(files, prior, published, failed);
    }

    method AdmitCreate(files: Replay, target: Block) returns (ok: bool)
      ensures ok <==> CreateAdmitted(files, repo, target)
    {
      if repo.cell.pointer.Some? || repo.cell.log != [] || Own(repo) != [] || !Clean(files, repo) || repo.renames {
        return false;
      }
      var prior, from := JudgedFiles(files, repo), files(Seal.History(Some(target)));
      hide NothingInTheWay;
      var plan := PlanMaterialization(repo.wt, from, prior);
      ok := plan.Some? && plan.value.inTheWay == [];
    }

    method PublishFirst(target: Block, key: KeyId, stop: nat) returns (ok: bool)
      requires Valid() && repo.cell.pointer.None? && repo.cell.log == []
      modifies this
      ensures var t := Create(old(repo).cell, target, key);
        && ok == Succeeded(t, stop) && repo == old(repo).(cell := Stopped(t, stop))
        && Within(history, old(history), old(repo), Reached(t, stop))
      ensures ok ==> Seal.Target(repo.cell) == Some(target)
      ensures Valid() && effects == old(effects)
    {
      ghost var reached := Reached(Create(repo.cell, target, key), stop);
      ok := PublishInto(MakeRequest(RefState(target, 1, None, false), key), stop, reached);
    }

    /** `run_create` with the new branch current and unborn: the marker stays set when the publication fails. */
    method CreateOntoCurrent(files: Replay, target: Block, key: KeyId, stop: nat) returns (result: Result)
      requires history == [repo]
      modifies this
      ensures Valid() && forall h :: h in history ==> CreateState(files, old(repo), target, key, stop, h)
      ensures result == Refused <==> !CreateAdmitted(files, old(repo), target)
      ensures result == Refused ==> repo == old(repo)
      ensures repo.marker && !old(repo).marker ==> result in {PublishFailed, MaterializeFailed}
      ensures result == MarkFailed ==> effects == 0
      ensures result in {Done, MarkFailed, PublishFailed, MaterializeFailed, Refused}
      ensures result == PublishFailed ==> !Succeeded(Create(old(repo).cell, target, key), stop)
      ensures result == MaterializeFailed ==> effects == 0 || !PrefixFree(files(Seal.History(Some(target))))
      ensures result == Done ==>
                var published := old(repo).(marker := true, cell := Stopped(Create(old(repo).cell, target, key), stop));
                && Unobstructed(files, old(repo), published.cell)
                && repo == MaterializeDone(files, JudgedFiles(files, old(repo)), published)
    {
      var admitted := AdmitCreate(files, target);
      if !admitted {
        return Refused;
      }
      ghost var start := repo;
      var prior := JudgedFiles(files, repo);
      var ok := Write(repo.(marker := true));
      if !ok {
        return MarkFailed;
      }
      ghost var marked := history;
      ok := PublishFirst(target, key, stop);
      assert forall h :: h in history ==> CreateState(files, start, target, key, stop, h) by {
        ghost var reached := Reached(Create(start.cell, target, key), stop);
        assert reached[0] in reached;
        assert forall h :: h in marked ==> h == start || h == start.(marker := true);
      }
      if !ok {
        return PublishFailed;
      }
      ok := MaterializeTip(files, prior);
      if !ok {
        return MaterializeFailed;
      }
      result := Done;
    }
  }
}
