/**
 `prikk seal`: publishing the queued patches as one block, retrying an interrupted attempt, draining the
 queue, and the gated record of what the worktree was last made to match.
 */
module Seal {
  import opened Bytes
  import opened Publication

  /** A sealed block, if any, with queued patches folded on top: what a worktree can be made to match. */
  datatype Fold = Fold(baseline: Option<Block>, queued: seq<PatchId>)

  function History(b: Option<Block>): seq<PatchId>
    decreases b
  {
    match b
    case None => []
    case Some(Block(parent, patches)) => History(parent) + patches
  }

  /** The content a fold stands for: every patch applied, in order. */
  function Content(f: Fold): seq<PatchId> {
    History(f.baseline) + f.queued
  }

  /**
   One ref with its active queue and its worktree. `owned` is the active-ref metadata naming this ref;
   `record` is the worktree baseline record (none when the file is absent or empty); `held` is the
   content the worktree's files were last made to match.
   */
  datatype World = World(
    cell: Cell, queue: seq<PatchId>, owned: bool, record: Option<Fold>, held: seq<PatchId>)

  function TargetOf(s: Option<RefState>): Option<Block> {
    if s.Some? then Some(s.value.target) else None
  }

  function Target(c: Cell): Option<Block> {
    TargetOf(c.pointer)
  }

  /** `live_baseline_identity`: what the ref resolves to now, with its queue folded in. */
  function Live(w: World): Fold {
    Fold(Target(w.cell), w.queue)
  }

  /** `worktree_baseline_matches_fold_being_sealed`: no record counts as a match. */
  predicate RecordMatches(w: World) {
    w.record.None? || w.record.value == Live(w)
  }

  datatype WorldTrace = WorldTrace(states: seq<World>, ok: bool)

  function Last(states: seq<World>): World
    requires |states| >= 1
  {
    states[|states| - 1]
  }

  /** Replacing the record in place: emptied first, then written. */
  function RecordStates(w: World, f: Fold): (states: seq<World>)
    ensures |states| == 2
  {
    [w.(record := None), w.(record := Some(f))]
  }

  /** `finish_active_publication_cleanup`, then the record if it is due: what follows a finished publication. */
  function Drain(w: World, due: bool): (states: seq<World>)
    ensures |states| >= 2
  {
    var drained := w.(queue := []);
    var released := drained.(owned := false);
    [drained, released] + (if due then RecordStates(released, Fold(Target(w.cell), [])) else [])
  }

  /** `seal_active_no_audit` for a sound queue: every durable state, and whether it reports success. */
  function Seal(w: World, key: KeyId): (t: WorldTrace)
    ensures |t.states| >= 1 && t.states[0] == w
  {
    if w.queue == [] then WorldTrace(if w.owned then [w, w.(owned := false)] else [w], false)
    else if !w.owned || w.cell.pointerTorn then WorldTrace([w], false)
    else SealAfter(w, SealPublication(w.cell, w.queue, key))
  }

  /** A seal, given what its publication did. */
  function SealAfter(w: World, published: Trace): (t: WorldTrace)
    requires |published.states| >= 1 && published.states[0] == w.cell
    ensures |t.states| >= 1 && t.states[0] == w
  {
    var states := Lift(published.states, (c: Cell) => w.(cell := c));
    if !published.ok then WorldTrace(states, false)
    else WorldTrace(states + Drain(Last(states), RecordMatches(w)), true)
  }

  function StoppedAt(t: WorldTrace, stop: nat): World
    requires |t.states| >= 1
  {
    if stop < |t.states| then t.states[stop] else Last(t.states)
  }

  predicate EndsWell(t: WorldTrace, stop: nat) {
    t.ok && stop >= |t.states| - 1
  }

  // ----- the command, as a sequence of effects -----

  class SealCommand {
    var world: World
    var effects: nat

    constructor (world: World, effects: nat)
      ensures this.world == world && this.effects == effects
    {
      this.world := world;
      this.effects := effects;
    }

    method Write(next: World) returns (written: bool)
      modifies this
      ensures written <==> old(effects) > 0
      ensures written ==> world == next && effects == old(effects) - 1
      ensures !written ==> world == old(world) && effects == old(effects)
    {
      if effects == 0 {
        return false;
      }
      effects := effects - 1;
      world := next;
      written := true;
    }

    /** One publication through the ref store, spending this command's remaining effects. */
    method PublishQueue(key: KeyId) returns (ok: bool)
      requires world.queue != []
      modifies this
      ensures var t := SealPublication(old(world).cell, old(world).queue, key);
        && world == old(world).(cell := Publication.Stopped(t, old(effects)))
        && ok == Publication.Succeeded(t, old(effects))
        && (ok ==> effects == old(effects) - (|t.states| - 1))
    {
      var current := world.cell.pointer;
      var store := new RefStore(world.cell, effects);
      if current.Some? && current.value.target.patches == world.queue {
        ok := store.PublishBody(MakeRequest(current.value, key), true);
      } else {
        ok := store.PublishBody(MakeRequest(SealedState(current, world.queue), key), true);
      }
      world := world.(cell := store.cell);
      effects := store.effects;
    }

    /** `seal_active_no_audit` */
    method Execute(key: KeyId) returns (ok: bool)
      modifies this
      ensures world == StoppedAt(Seal(old(world), key), old(effects))
      ensures ok == EndsWell(Seal(old(world), key), old(effects))
    {
      if world.queue == [] {
        if world.owned {
          var _ := Write(world.(owned := false));
        }
        return false;
      }
      if !world.owned || world.cell.pointerTorn {
        return false;
      }
      var due := RecordMatches(world);
      ghost var published := SealPublication(world.cell, world.queue, key);
      ok := PublishQueue(key);
      if published.ok {
        SealStopped(old(world), published, old(effects));
      }
      if !ok { return; }
      ok := CleanUp(due);
    }

    /** `finish_active_publication_cleanup`, then the record if it is due. */
    method CleanUp(due: bool) returns (ok: bool)
      modifies this
      ensures var states := Drain(old(world), due);
        && ok == (old(effects) >= |states|)
        && world == if old(effects) == 0 then old(world) else states[if ok then |states| - 1 else old(effects) - 1]
    {
      var target := Target(world.cell);
      ok := Write(world.(queue := []));
      if !ok { return; }
      ok := Write(world.(owned := false));
      if !ok { return; }
      if due {
        ok := Write(world.(record := None));
        if !ok { return; }
        ok := Write(world.(record := Some(Fold(target, []))));
      }
    }
  }

  /** A state of a seal is a state of its publication or, after a finished one, of the drain. */
  lemma SealState(w: World, published: Trace, k: nat)
    requires |published.states| >= 1 && published.states[0] == w.cell && k < |SealAfter(w, published).states|
    ensures var n, end := |published.states|, w.(cell := published.states[|published.states| - 1]);
      && (k < n ==> SealAfter(w, published).states[k] == w.(cell := published.states[k]))
      && (k >= n ==>
            && published.ok && k - n < |Drain(end, RecordMatches(w))|
            && SealAfter(w, published).states[k] == Drain(end, RecordMatches(w))[k - n])
  {
  }

  lemma SealLast(w: World, published: Trace)
    requires |published.states| >= 1 && published.states[0] == w.cell && published.ok
    ensures var end := w.(cell := published.states[|published.states| - 1]);
      Last(SealAfter(w, published).states) == Last(Drain(end, RecordMatches(w)))
  {
    SealState(w, published, |SealAfter(w, published).states| - 1);
  }

  /** Where a seal stands after `stop` steps: inside its publication, or in the cleanup after it. */
  lemma SealStopped(w: World, published: Trace, stop: nat)
    requires |published.states| >= 1 && published.states[0] == w.cell && published.ok
    ensures var t, n := SealAfter(w, published), |published.states|;
      var drain := Drain(w.(cell := published.states[n - 1]), RecordMatches(w));
      && |t.states| == n + |drain|
      && StoppedAt(t, stop) == if stop < n then w.(cell := published.states[stop])
                               else drain[if stop - n < |drain| then stop - n else |drain| - 1]
  {
    var total := |SealAfter(w, published).states|;
    SealState(w, published, if stop < total then stop else total - 1);
  }

  // ----- when a seal goes through, and what it then leaves -----

  /** A seal goes through exactly for an owned, non-empty queue whose publication does. */
  lemma SealSucceedsExactly(w: World, key: KeyId)
    requires Inv(w.cell)
    ensures Seal(w, key).ok <==>
              && w.queue != [] && w.owned && !w.cell.pointerTorn
              && if Target(w.cell).None? || Target(w.cell).value.patches != w.queue then Settled(w.cell)
                 else if Settled(w.cell) then w.cell.log[|w.cell.log| - 1].key == key
                 else w.cell.tail.Some? ==> w.cell.tail.value.key == key
  {
    SealExactly(w.cell, w.queue, key);
  }

  /**
   What a successful seal leaves: the queue is empty and released, the tip holds its patches, and the record
   names the new tip exactly when there was none or it was of just what was sealed. Otherwise it is as it was.
   */
  lemma SealLeaves(w: World, key: KeyId)
    requires Inv(w.cell) && w.queue != [] && Seal(w, key).ok
    ensures var end := Last(Seal(w, key).states);
      && Settled(end.cell) && !end.cell.pointerTorn && end.queue == [] && !end.owned && end.held == w.held
      && Target(end.cell) == (if Target(w.cell).Some? && Target(w.cell).value.patches == w.queue then Target(w.cell)
                              else Some(Block(Target(w.cell), w.queue)))
      && end.record == if w.record.None? || w.record == Some(Fold(Target(w.cell), w.queue))
                       then Some(Fold(Target(end.cell), [])) else w.record
  {
    SealHonours(w.cell, w.queue, key);
    SealAfterLeaves(w, key, SealPublication(w.cell, w.queue, key));
  }

  lemma SealAfterLeaves(w: World, key: KeyId, published: Trace)
    requires Honours(w.cell, SealRequest(w.cell, w.queue, key), published) && published.ok
    ensures var end := Last(SealAfter(w, published).states);
      && Settled(end.cell) && !end.cell.pointerTorn && end.queue == [] && !end.owned && end.held == w.held
      && Target(end.cell) == (if Target(w.cell).Some? && Target(w.cell).value.patches == w.queue then Target(w.cell)
                              else Some(Block(Target(w.cell), w.queue)))
      && end.record == if w.record.None? || w.record == Some(Fold(Target(w.cell), w.queue))
                       then Some(Fold(Target(end.cell), [])) else w.record
  {
    SealLast(w, published);
  }

  /** `run_close`: refused over a queue of the branch itself, else a publication and nothing more. */
  function CloseBranch(w: World, key: KeyId): (t: WorldTrace)
    ensures |t.states| >= 1 && t.states[0] == w
  {
    if w.queue != [] && w.owned then WorldTrace([w], false)
    else
      var closed := Close(w.cell, key);
      WorldTrace(Lift(closed.states, (c: Cell) => w.(cell := c)), closed.ok)
  }

  /**
   A branch is closed exactly when it is open, fully published and has no queue of its own. That keeps its
   target and its history; queue, worktree and record stay as they are, and a second close is refused.
   */
  lemma CloseBranchExactly(w: World, key: KeyId)
    requires Inv(w.cell)
    ensures CloseBranch(w, key).ok <==>
              && (w.queue == [] || !w.owned)
              && w.cell.pointer.Some? && !w.cell.pointer.value.closed && Settled(w.cell) && !w.cell.pointerTorn
    ensures var t := CloseBranch(w, key);
      if t.ok then
        var end := Last(t.states);
        && end == w.(cell := end.cell) && Target(end.cell) == Target(w.cell)
        && end.cell.pointer.Some? && end.cell.pointer.value.closed && Settled(end.cell)
        && |end.cell.log| == |w.cell.log| + 1 && end.cell.log[..|w.cell.log|] == w.cell.log
        && !CloseBranch(end, key).ok
      else t.states == [w]
  {
    CloseExactly(w.cell, key);
  }

  // ----- one block per queue, over any number of interrupted attempts -----

  /** The block a queue becomes on top of the state it was queued against. */
  function NewState(w: World): RefState {
    SealedState(w.cell.pointer, w.queue)
  }

  /** A queue that differs from the patches of the tip it will be sealed onto. */
  predicate Fresh(w: World) {
    w.queue != [] && !TipMatches(w.cell, w.queue)
  }

  ghost predicate Sound(w: World) {
    Inv(w.cell) && Settled(w.cell)
  }

  /**
   Where any number of interrupted attempts to seal `w0` can stand. The queue stays whole until the new
   block is published and logged; the log gains one record and no other block appears.
   */
  ghost predicate Progress(w0: World, w: World) {
    var c, c0 := w.cell, w0.cell;
    && Inv(c) && w.held == w0.held
    && (|| (w.queue == w0.queue && w.owned && c.pointer == c0.pointer && c.log == c0.log && c.tail.None?)
        || (w.queue == w0.queue && w.owned && c.pointer == Some(NewState(w0)) && c.log == c0.log)
        || (Done(w0, w) && (w.queue == [] || (w.queue == w0.queue && w.owned))))
  }

  /** The new block is the tip, and the log holds exactly one more record, which publishes it. */
  ghost predicate Done(w0: World, w: World) {
    && w.cell.pointer == Some(NewState(w0)) && w.cell.tail.None?
    && |w.cell.log| == |w0.cell.log| + 1
    && w.cell.log[..|w0.cell.log|] == w0.cell.log
    && Records(w.cell.log[|w0.cell.log|], NewState(w0))
  }

  /** An attempt to seal, stopped somewhere, or a repair of torn tails between two attempts. */
  datatype Attempt = TrySeal(key: KeyId, stop: nat) | Repair

  function Attempted(w: World, a: Attempt): World {
    match a
    case TrySeal(key, stop) => StoppedAt(Seal(w, key), stop)
    case Repair => w.(cell := TailsRepaired(w.cell))
  }

  function Attempts(w: World, attempts: seq<Attempt>): World
    decreases |attempts|
  {
    if attempts == [] then w else Attempts(Attempted(w, attempts[0]), attempts[1..])
  }

  /** Every attempt asks for the same state. */
  lemma SameRequest(w0: World, w: World, key: KeyId)
    requires Fresh(w0) && Progress(w0, w) && w.queue == w0.queue
    ensures SealRequest(w.cell, w.queue, key) == MakeRequest(NewState(w0), key)
  {
  }

  /** The publication step alone moves an attempt only along the phases of `Progress`. */
  lemma PublicationProgress(w0: World, w: World, key: KeyId, x: Cell)
    requires Progress(w0, w) && w.queue == w0.queue && Passed(w.cell, MakeRequest(NewState(w0), key), x) && Inv(x)
    ensures Progress(w0, w.(cell := x))
  {
    NoSelfPrevious(NewState(w0));
    var u := MakeRequest(NewState(w0), key).update;
    assert (w0.cell.log + [u])[..|w0.cell.log|] == w0.cell.log;
  }

  /** A publication that finished has put the new block in. */
  lemma PublicationDone(w0: World, w: World, key: KeyId, end: Cell)
    requires Sound(w0) && Progress(w0, w) && w.queue == w0.queue
    requires var p := MakeRequest(NewState(w0), key); PublishedTo(w.cell, p, end) && Passed(w.cell, p, end)
    ensures Done(w0, w.(cell := end))
  {
    hide Linked, LogSound;
    NoSelfPrevious(NewState(w0));
    var p := MakeRequest(NewState(w0), key);
    assert (w0.cell.log + [p.update])[..|w0.cell.log|] == w0.cell.log;
    if w.cell.log == w0.cell.log {
      NotTheLastRecord(w0.cell, p);
    }
  }

  /** After a finished publication, draining the queue and writing the record change neither pointer nor log. */
  lemma DrainProgress(w0: World, w: World, due: bool, k: nat)
    requires Progress(w0, w) && Done(w0, w) && k < |Drain(w, due)|
    ensures Progress(w0, Drain(w, due)[k]) && Done(w0, Drain(w, due)[k]) && Drain(w, due)[k].queue == []
  {
    assert Drain(w, due)[k].cell == w.cell;
  }

  /** What a publication does for an attempt: every state is in progress, and a finished one has the block in. */
  ghost predicate Advances(w0: World, w: World, published: Trace) {
    && |published.states| >= 1 && published.states[0] == w.cell
    && (forall k :: 0 <= k < |published.states| ==> Progress(w0, w.(cell := published.states[k])))
    && (published.ok ==> Done(w0, w.(cell := published.states[|published.states| - 1])))
  }

  lemma PublicationAdvances(w0: World, w: World, key: KeyId, published: Trace)
    requires Sound(w0) && Fresh(w0) && Progress(w0, w) && w.queue == w0.queue
    requires Honours(w.cell, MakeRequest(NewState(w0), key), published)
    ensures Advances(w0, w, published)
  {
    forall k | 0 <= k < |published.states| ensures Progress(w0, w.(cell := published.states[k])) {
      PublicationProgress(w0, w, key, published.states[k]);
    }
    if published.ok {
      PublicationDone(w0, w, key, published.states[|published.states| - 1]);
    }
  }

  lemma SealAfterAdvances(w0: World, w: World, published: Trace, k: nat)
    requires Advances(w0, w, published) && k < |SealAfter(w, published).states|
    ensures Progress(w0, SealAfter(w, published).states[k])
  {
    SealState(w, published, k);
    if k >= |published.states| {
      DrainProgress(w0, w.(cell := published.states[|published.states| - 1]), RecordMatches(w), k - |published.states|);
    }
  }

  lemma SealAfterDone(w0: World, w: World, published: Trace)
    requires Advances(w0, w, published) && published.ok
    ensures var end := Last(SealAfter(w, published).states); Done(w0, end) && end.queue == []
  {
    var end := w.(cell := published.states[|published.states| - 1]);
    SealLast(w, published);
    DrainProgress(w0, end, RecordMatches(w), |Drain(end, RecordMatches(w))| - 1);
  }

  /** One attempt, stopped anywhere, stays in progress; if it reports success, the block is in and the queue empty. */
  lemma AttemptProgress(w0: World, w: World, key: KeyId, stop: nat)
    requires Sound(w0) && Fresh(w0) && Progress(w0, w)
    ensures Progress(w0, StoppedAt(Seal(w, key), stop))
    ensures EndsWell(Seal(w, key), stop) ==>
              Done(w0, StoppedAt(Seal(w, key), stop)) && StoppedAt(Seal(w, key), stop).queue == []
  {
    if w.queue != [] && w.owned && !w.cell.pointerTorn {
      SealHonours(w.cell, w.queue, key);
      SameRequest(w0, w, key);
      PublicationAdvances(w0, w, key, SealPublication(w.cell, w.queue, key));
      AttemptAfter(w0, w, SealPublication(w.cell, w.queue, key), stop);
    }
  }

  lemma AttemptAfter(w0: World, w: World, published: Trace, stop: nat)
    requires Advances(w0, w, published)
    ensures var t := SealAfter(w, published);
      && Progress(w0, StoppedAt(t, stop))
      && (EndsWell(t, stop) ==> Done(w0, StoppedAt(t, stop)) && StoppedAt(t, stop).queue == [])
  {
    var total := |SealAfter(w, published).states|;
    SealAfterAdvances(w0, w, published, if stop < total then stop else total - 1);
    if EndsWell(SealAfter(w, published), stop) {
      SealAfterDone(w0, w, published);
    }
  }

  /** Every sequence of interrupted attempts and repairs: no patch lost, no patch sealed twice, one new block. */
  lemma {:induction false} AttemptsProgress(w0: World, w: World, attempts: seq<Attempt>)
    requires Sound(w0) && Fresh(w0) && Progress(w0, w)
    ensures Progress(w0, Attempts(w, attempts))
    decreases |attempts|
  {
    if attempts != [] {
      match attempts[0] {
        case TrySeal(key, stop) => AttemptProgress(w0, w, key, stop);
        case Repair =>
      }
      AttemptsProgress(w0, Attempted(w, attempts[0]), attempts[1..]);
    }
  }

  lemma SealIsIdempotent(w0: World, attempts: seq<Attempt>, key: KeyId, stop: nat)
    requires Sound(w0) && Fresh(w0) && w0.owned
    requires EndsWell(Seal(Attempts(w0, attempts), key), stop)
    ensures var w := StoppedAt(Seal(Attempts(w0, attempts), key), stop);
      && w.queue == [] && Done(w0, w)
      && History(Target(w.cell)) == History(Target(w0.cell)) + w0.queue
  {
    AttemptsProgress(w0, w0, attempts);
    AttemptProgress(w0, Attempts(w0, attempts), key, stop);
  }

  /**
   No crash point is a dead end: after any attempts, a repair leaves the next seal free to go through,
   exactly unless the block is already logged under another signer's record.
   */
  lemma RepairThenSeal(w0: World, attempts: seq<Attempt>, key: KeyId)
    requires Sound(w0) && Fresh(w0) && w0.owned && Attempts(w0, attempts).queue != []
    ensures var w := Attempted(Attempts(w0, attempts), Repair);
      Seal(w, key).ok <==> (Done(w0, w) ==> w.cell.log[|w0.cell.log|].key == key)
  {
    AttemptsProgress(w0, w0, attempts);
    RepairedSeals(w0, Attempted(Attempts(w0, attempts), Repair), key);
  }

  lemma RepairedSeals(w0: World, w: World, key: KeyId)
    requires Sound(w0) && Fresh(w0) && Progress(w0, w) && w.queue != [] && !w.cell.pointerTorn && w.cell.tail.None?
    ensures Seal(w, key).ok <==> (Done(w0, w) ==> w.cell.log[|w0.cell.log|].key == key)
  {
    var n := NewState(w0);
    NoSelfPrevious(n);
    LinkedSeq(w.cell.log);
    if w.cell.pointer == w0.cell.pointer {
      NotTheLastRecord(w.cell, MakeRequest(n, key));
    } else if w.cell.log == w0.cell.log {
      RetryFinishes(w.cell, w.queue, key);
    } else {
      RepeatAfterComplete(w.cell, w.queue, key);
    }
  }

  /**
   A queue equal to the tip's own patches is taken for an interrupted attempt: a successful seal then
   drains it and adds no block. So a success adds the queue to history exactly when the queue is fresh.
   */
  lemma SealAddsBlockIffFresh(w0: World, key: KeyId)
    requires Sound(w0) && w0.owned && w0.queue != [] && Seal(w0, key).ok
    ensures var w := Last(Seal(w0, key).states);
      w.queue == [] && (Target(w.cell) == Some(Block(Target(w0.cell), w0.queue)) <==> Fresh(w0))
  {
    var t := Seal(w0, key);
    if Fresh(w0) {
      AttemptProgress(w0, w0, key, |t.states|);
    } else {
      RepeatAfterComplete(w0.cell, w0.queue, key);
      NoBlockIsItsOwnParent(Target(w0.cell).value, w0.queue);
    }
  }

  /** A queue that repeats the tip's patches is drained, and history is what it was. */
  lemma RepeatedQueueDrained(b: Block)
    requires b.patches != []
    ensures var w := CutShort(b).(queue := b.patches, owned := true);
      && Sound(w) && Seal(w, 0).ok
      && Last(Seal(w, 0).states).queue == [] && Target(Last(Seal(w, 0).states).cell) == Some(b)
  {
    var w := CutShort(b).(queue := b.patches, owned := true);
    CutShortSound(b);
    RepeatAfterComplete(w.cell, w.queue, 0);
    SealLast(w, SealPublication(w.cell, w.queue, 0));
  }

  lemma NoBlockIsItsOwnParent(b: Block, patches: seq<PatchId>)
    ensures b != Block(Some(b), patches)
  {
  }

  // ----- the record never claims more than the worktree holds -----

  /** The content history holds once this queue is sealed. An interrupted seal has it in the tip already. */
  function Total(w: World): seq<PatchId> {
    if TipMatches(w.cell, w.queue) then History(Target(w.cell)) else Content(Live(w))
  }

  /** The worktree holds a stage of the content, and the record claims no more than the worktree holds. */
  ghost predicate Honest(w: World) {
    w.held <= Total(w) && (w.record.Some? ==> Content(w.record.value) <= w.held)
  }

  /** The one state a seal misjudges: no record to compare, over a worktree that lags what is being sealed. */
  predicate Blind(w: World) {
    w.record.None? && w.held != Total(w)
  }

  /**
   `commit`: the patch is the difference between the ref's fold and the worktree, so once it is queued
   the worktree is the new fold. Refused while a publication or its cleanup is unfinished.
   */
  function Commit(w: World, patch: PatchId): (t: WorldTrace)
    ensures |t.states| >= 1 && t.states[0] == w
  {
    if w.cell.pointerTorn || !Settled(w.cell) || (w.queue != [] && (!w.owned || TipMatches(w.cell, w.queue)))
    then WorldTrace([w], false)
    else
      var claimed := w.(owned := true);
      var queued := claimed.(queue := w.queue + [patch], held := Content(Fold(Target(w.cell), w.queue + [patch])));
      WorldTrace([w, claimed, queued] + RecordStates(queued, Live(queued)), true)
  }

  /** `rollback-draft --append-inverse`: queues a patch on an empty queue and touches neither worktree nor record. */
  function Draft(w: World, patch: PatchId): (t: WorldTrace)
    ensures |t.states| >= 1 && t.states[0] == w
  {
    if w.cell.pointerTorn || !Settled(w.cell) || w.cell.pointer.None? || w.queue != [] then WorldTrace([w], false)
    else
      var claimed := w.(owned := true);
      WorldTrace([w, claimed, claimed.(queue := [patch])], true)
  }

  /** `branch switch` to the current branch: writes the tip's files, then the record. */
  function Resync(w: World): (t: WorldTrace)
    ensures |t.states| >= 1 && t.states[0] == w
  {
    if w.queue != [] then WorldTrace([w], false)
    else
      var written := w.(held := History(Target(w.cell)));
      WorldTrace([w, written] + RecordStates(written, Fold(Target(w.cell), [])), true)
  }

  datatype Op =
    | OpCommit(patch: PatchId, stop: nat)
    | OpDraft(patch: PatchId, stop: nat)
    | OpSeal(key: KeyId, stop: nat)
    | OpResync(stop: nat)

  function OpTrace(w: World, op: Op): (t: WorldTrace)
    ensures |t.states| >= 1 && t.states[0] == w
  {
    match op
    case OpCommit(patch, _) => Commit(w, patch)
    case OpDraft(patch, _) => Draft(w, patch)
    case OpSeal(key, _) => Seal(w, key)
    case OpResync(_) => Resync(w)
  }

  function Step(w: World, op: Op): World {
    StoppedAt(OpTrace(w, op), op.stop)
  }

  function RunOps(w: World, ops: seq<Op>): World
    decreases |ops|
  {
    if ops == [] then w else RunOps(Step(w, ops[0]), ops[1..])
  }

  /** No seal starts blind, and no new patch makes the queue a repeat of the patches it would be sealed onto. */
  predicate Careful(w: World, op: Op) {
    match op
    case OpSeal(_, _) => !Blind(w)
    case OpCommit(patch, _) => !TipMatches(w.cell, w.queue + [patch])
    case OpDraft(patch, _) => !TipMatches(w.cell, [patch])
    case OpResync(_) => true
  }

  predicate CarefulRun(w: World, ops: seq<Op>)
    decreases |ops|
  {
    ops == [] || (Careful(w, ops[0]) && CarefulRun(Step(w, ops[0]), ops[1..]))
  }

  /** What a finished publication leaves as the tip's history. */
  lemma PublishedHistory(c: Cell, patches: seq<PatchId>, key: KeyId, end: Cell)
    requires PublishedTo(c, SealRequest(c, patches, key), end)
    ensures History(Target(end))
         == (if TipMatches(c, patches) then History(Target(c)) else History(Target(c)) + patches)
  {
  }

  /** A publication's pointer is the one it started from or the one it publishes. */
  lemma PublicationTotal(w: World, key: KeyId, x: Cell)
    requires w.queue != [] && Passed(w.cell, SealRequest(w.cell, w.queue, key), x)
    ensures Total(w.(cell := x)) == Total(w)
  {
  }

  /** The ref's chain holds and, with the queue, still stands for the same content. */
  ghost predicate SameTotal(w: World, c: Cell) {
    Inv(c) && Total(w.(cell := c)) == Total(w)
  }

  /** What the rest of a seal needs to know of its publication. */
  ghost predicate Publishes(w: World, published: Trace) {
    && |published.states| >= 1 && published.states[0] == w.cell
    && (forall k :: 0 <= k < |published.states| ==> SameTotal(w, published.states[k]))
    && (published.ok ==> History(Target(published.states[|published.states| - 1])) == Total(w))
  }

  lemma HonouredPublishes(w: World, key: KeyId, published: Trace)
    requires w.queue != [] && Honours(w.cell, SealRequest(w.cell, w.queue, key), published)
    ensures Publishes(w, published)
  {
    forall k | 0 <= k < |published.states| ensures SameTotal(w, published.states[k]) {
      PublicationTotal(w, key, published.states[k]);
    }
    if published.ok {
      PublishedHistory(w.cell, w.queue, key, published.states[|published.states| - 1]);
    }
  }

  lemma SealPublishes(w: World, key: KeyId)
    requires Inv(w.cell) && w.queue != []
    ensures Publishes(w, SealPublication(w.cell, w.queue, key))
  {
    SealHonours(w.cell, w.queue, key);
    HonouredPublishes(w, key, SealPublication(w.cell, w.queue, key));
  }

  /** After the publication only the queue, the ownership and the record change; the content stays the same. */
  lemma DrainKeepsContent(w: World, due: bool, k: nat)
    requires k < |Drain(w, due)|
    ensures var s := Drain(w, due)[k];
      && s.cell == w.cell && s.held == w.held && Total(s) == History(Target(w.cell))
      && (s.record == w.record || s.record.None? || (due && s.record == Some(Fold(Target(w.cell), []))))
    ensures Last(Drain(w, due)).record == if due then Some(Fold(Target(w.cell), [])) else w.record
  {
  }

  /** The state changes neither the worktree nor the content that ref and queue stand for. */
  ghost predicate Kept(w: World, published: Trace, s: World) {
    && Inv(s.cell) && s.held == w.held && Total(s) == Total(w)
    && (|| s.record == w.record
        || s.record.None?
        || (published.ok && RecordMatches(w) && Content(s.record.value) == Total(w)))
  }

  lemma DrainedKept(w: World, published: Trace, j: nat)
    requires Publishes(w, published) && published.ok
    requires j < |Drain(w.(cell := published.states[|published.states| - 1]), RecordMatches(w))|
    ensures Kept(w, published, Drain(w.(cell := published.states[|published.states| - 1]), RecordMatches(w))[j])
  {
    var end := w.(cell := published.states[|published.states| - 1]);
    DrainKeepsContent(end, RecordMatches(w), j);
    assert Content(Fold(Target(end.cell), [])) == History(Target(end.cell));
  }

  /** A seal changes neither the worktree nor, at any point, the content its ref and queue stand for. */
  lemma SealAfterKeeps(w: World, published: Trace, k: nat)
    requires Publishes(w, published) && k < |SealAfter(w, published).states|
    ensures Kept(w, published, SealAfter(w, published).states[k])
  {
    var n := |published.states|;
    SealState(w, published, k);
    if k >= n {
      DrainedKept(w, published, k - n);
    }
  }

  /** A finished seal's record, if due, claims all of the content; otherwise it is as it was. */
  lemma SealAfterRecord(w: World, published: Trace)
    requires Publishes(w, published) && published.ok
    ensures var end := Last(SealAfter(w, published).states);
      if RecordMatches(w) then end.record.Some? && Content(end.record.value) == Total(w) else end.record == w.record
  {
    var end := w.(cell := published.states[|published.states| - 1]);
    SealLast(w, published);
    DrainKeepsContent(end, RecordMatches(w), 0);
    assert Content(Fold(Target(end.cell), [])) == History(Target(end.cell));
  }

  /** A record that matches, over an honest worktree, means the worktree holds everything being sealed. */
  lemma MatchingRecordHoldsAll(w: World)
    requires Honest(w) && RecordMatches(w) && w.queue != [] && !Blind(w)
    ensures w.held == Total(w)
  {
  }

  lemma SealAfterHonest(w: World, published: Trace, k: nat)
    requires Publishes(w, published) && Honest(w) && !Blind(w) && w.queue != []
    requires k < |SealAfter(w, published).states|
    ensures Inv(SealAfter(w, published).states[k].cell) && Honest(SealAfter(w, published).states[k])
  {
    SealAfterKeeps(w, published, k);
    if RecordMatches(w) {
      MatchingRecordHoldsAll(w);
    }
  }

  /** A successful seal leaves an honest record exactly when it did not start blind. */
  lemma SealHonestIffNotBlind(w: World, key: KeyId)
    requires Inv(w.cell) && Honest(w) && w.queue != [] && Seal(w, key).ok
    ensures Honest(Last(Seal(w, key).states)) <==> !Blind(w)
  {
    var published := SealPublication(w.cell, w.queue, key);
    SealPublishes(w, key);
    SealAfterHonestIff(w, published);
  }

  lemma SealAfterHonestIff(w: World, published: Trace)
    requires Publishes(w, published) && published.ok && Honest(w) && w.queue != []
    ensures Honest(Last(SealAfter(w, published).states)) <==> !Blind(w)
  {
    var n := |SealAfter(w, published).states|;
    if Blind(w) {
      SealAfterKeeps(w, published, n - 1);
      SealAfterRecord(w, published);
    } else {
      SealAfterHonest(w, published, n - 1);
    }
  }

  lemma SealHonest(w: World, key: KeyId, k: nat)
    requires Inv(w.cell) && Honest(w) && !Blind(w) && k < |Seal(w, key).states|
    ensures Inv(Seal(w, key).states[k].cell) && Honest(Seal(w, key).states[k])
  {
    if w.queue != [] && w.owned && !w.cell.pointerTorn {
      SealPublishes(w, key);
      SealAfterHonest(w, SealPublication(w.cell, w.queue, key), k);
    }
  }

  lemma CommitHonest(w: World, patch: PatchId, k: nat)
    requires Inv(w.cell) && Honest(w) && !TipMatches(w.cell, w.queue + [patch]) && k < |Commit(w, patch).states|
    ensures Commit(w, patch).states[k].cell == w.cell && Honest(Commit(w, patch).states[k])
  {
    assert Content(Fold(Target(w.cell), w.queue + [patch])) == Content(Live(w)) + [patch];
  }

  lemma DraftHonest(w: World, patch: PatchId, k: nat)
    requires Inv(w.cell) && Honest(w) && !TipMatches(w.cell, [patch]) && k < |Draft(w, patch).states|
    ensures Draft(w, patch).states[k].cell == w.cell && Honest(Draft(w, patch).states[k])
  {
  }

  lemma ResyncHonest(w: World, k: nat)
    requires Inv(w.cell) && Honest(w) && k < |Resync(w).states|
    ensures Resync(w).states[k].cell == w.cell && Honest(Resync(w).states[k])
  {
    assert History(Target(w.cell)) + [] == History(Target(w.cell));
  }

  /** A finished commit leaves the worktree, the queue and the record in step. */
  lemma CommitLeaves(w: World, patch: PatchId)
    ensures Commit(w, patch).ok <==>
              && Settled(w.cell) && !w.cell.pointerTorn
              && (w.queue == [] || (w.owned && (Target(w.cell).Some? ==> Target(w.cell).value.patches != w.queue)))
    ensures var end := Last(Commit(w, patch).states);
      if Commit(w, patch).ok
      then end == World(w.cell, w.queue + [patch], true, Some(Live(end)), Content(Live(end)))
      else end == w
  {
  }

  /** A finished resync leaves the worktree and the record at the tip. */
  lemma ResyncLeaves(w: World)
    ensures Resync(w).ok <==> w.queue == []
    ensures var end := Last(Resync(w).states);
      if Resync(w).ok then end == World(w.cell, [], w.owned, Some(Live(end)), Content(Live(end))) else end == w
  {
    assert History(Target(w.cell)) + [] == History(Target(w.cell));
  }

  /** A finished draft queues its patch and leaves worktree and record behind it. */
  lemma DraftLeaves(w: World, patch: PatchId)
    ensures Draft(w, patch).ok <==>
              Settled(w.cell) && !w.cell.pointerTorn && w.cell.pointer.Some? && w.queue == []
    ensures Last(Draft(w, patch).states) ==
              if Draft(w, patch).ok then World(w.cell, [patch], true, w.record, w.held) else w
  {
  }

  /** Commit and seal, both complete: everything queued is history, and worktree and record are at the tip. */
  lemma CommitThenSeal(w: World, patch: PatchId, key: KeyId)
    requires Inv(w.cell) && Commit(w, patch).ok && !TipMatches(w.cell, w.queue + [patch])
    ensures var end := RunOps(w, [OpCommit(patch, 99), OpSeal(key, 99)]);
      && end.queue == [] && Settled(end.cell) && end.record == Some(Live(end)) && end.held == Content(Live(end))
      && History(Target(end.cell)) == History(Target(w.cell)) + w.queue + [patch]
  {
    hide Seal, Commit, Draft, Resync, Linked, Leading, Settled;
    CommitLeaves(w, patch);
    var mid := Last(Commit(w, patch).states);
    SealSucceedsExactly(mid, key);
    SealLeaves(mid, key);
    CommitLength(w, patch);
    SealLength(mid, key);
    RunTwo(w, OpCommit(patch, 99), OpSeal(key, 99));
    AllSteps(w, OpCommit(patch, 99));
    AllSteps(mid, OpSeal(key, 99));
    var end := Last(Seal(mid, key).states);
    assert History(Target(end.cell)) == History(Target(w.cell)) + (w.queue + [patch]);
    assert History(Target(end.cell)) + [] == History(Target(end.cell));
  }

  lemma AllSteps(w: World, op: Op)
    requires |OpTrace(w, op).states| <= op.stop
    ensures Step(w, op) == Last(OpTrace(w, op).states)
  {
  }

  lemma CommitLength(w: World, patch: PatchId)
    ensures |Commit(w, patch).states| <= 5
  {
  }

  lemma StepHonest(w: World, op: Op)
    requires Inv(w.cell) && Honest(w) && Careful(w, op)
    ensures Inv(Step(w, op).cell) && Honest(Step(w, op))
  {
    var n := |OpTrace(w, op).states|;
    var k := if op.stop < n then op.stop else n - 1;
    match op {
      case OpSeal(key, _) => SealHonest(w, key, k);
      case OpCommit(patch, _) => CommitHonest(w, patch, k);
      case OpDraft(patch, _) => DraftHonest(w, patch, k);
      case OpResync(_) => ResyncHonest(w, k);
    }
  }

  /**
   Over every careful run of commits, drafts, seals and resyncs, each stopped anywhere, the record claims no
   more than is held.
   */
  lemma {:induction false} RunHonest(w: World, ops: seq<Op>)
    requires Inv(w.cell) && Honest(w) && CarefulRun(w, ops)
    ensures Inv(RunOps(w, ops).cell) && Honest(RunOps(w, ops))
    decreases |ops|
  {
    if ops != [] {
      StepHonest(w, ops[0]);
      RunHonest(Step(w, ops[0]), ops[1..]);
    }
  }

  /** A published branch in step with its worktree, whose last record write was cut short. */
  function CutShort(b: Block): World {
    var s := RefState(b, 1, None, false);
    World(Cell(Some(s), false, [MakeRequest(s, 0).update], None), [], false, None, History(Some(b)))
  }

  lemma CutShortSound(b: Block)
    ensures Inv(CutShort(b).cell) && Honest(CutShort(b))
  {
    var c := CutShort(b).cell;
    LinkedAppend([], c.log[0]);
    assert c.log == [] + [c.log[0]];
  }

  /** A seal that finds no record publishes a fresh queue and records all of it as held. */
  lemma UnrecordedSeal(w: World, key: KeyId)
    requires Sound(w) && Fresh(w) && w.owned && !w.cell.pointerTorn && w.record.None?
    ensures Seal(w, key).ok
    ensures var end := Last(Seal(w, key).states);
      end.held == w.held && end.record.Some? && Content(end.record.value) == Content(Live(w))
  {
    LinkedSeq(w.cell.log);
    NotTheLastRecord(w.cell, MakeRequest(NewState(w), key));
    var published := SealPublication(w.cell, w.queue, key);
    SealPublishes(w, key);
    SealAfterKeeps(w, published, |SealAfter(w, published).states| - 1);
    SealAfterRecord(w, published);
  }

  lemma RunTwo(w: World, a: Op, b: Op)
    ensures RunOps(w, [a, b]) == Step(Step(w, a), b)
  {
    assert [a, b][1..] == [b] && [b][1..] == [];
    assert RunOps(Step(w, a), [b]) == RunOps(Step(Step(w, a), b), []);
  }

  /**
   A blind seal is reachable: once the record has been emptied, a draft and a seal leave a record that
   claims a patch the worktree was never given.
   */
  lemma BlindSealReachable(b: Block, patch: PatchId)
    requires b.patches != [patch]
    ensures Inv(CutShort(b).cell) && Honest(CutShort(b))
    ensures var w := RunOps(CutShort(b), [OpDraft(patch, 2), OpSeal(0, 99)]);
      w.record.Some? && Content(w.record.value) == w.held + [patch]
  {
    CutShortSound(b);
    var w := CutShort(b).(owned := true, queue := [patch]);
    assert Step(CutShort(b), OpDraft(patch, 2)) == w;
    UnrecordedSeal(w, 0);
    SealLength(w, 0);
    RunTwo(CutShort(b), OpDraft(patch, 2), OpSeal(0, 99));
  }

  /** A seal takes at most ten steps. */
  lemma SealLength(w: World, key: KeyId)
    ensures |Seal(w, key).states| <= 10
  {
  }

  /**
   After an interrupted seal, the retry leaves an existing record behind the new tip: the tip it compares
   with has already moved, so a resync is needed before the record is right again.
   */
  lemma RetryLeavesRecordBehind(w: World, key: KeyId)
    requires Inv(w.cell) && Leading(w.cell) && TipMatches(w.cell, w.queue) && w.queue != []
    requires !w.cell.pointer.value.closed && Seal(w, key).ok
    requires w.record == Some(Fold(TargetOf(Tip(w.cell.log)), w.queue))
    ensures var end := Last(Seal(w, key).states); end.record == w.record && !RecordMatches(end)
  {
    if w.cell.log != [] {
      NoBlockIsItsOwnParent(Tip(w.cell.log).value.target, w.queue);
    }
    assert w.record.value.baseline != Target(w.cell);
    SealPublishes(w, key);
    RecordStaysBehind(w, SealPublication(w.cell, w.queue, key));
  }

  /** A branch at patch 5, with patch 7 committed and its seal stopped right after the pointer entry. */
  function Interrupted(): World {
    var s := RefState(Block(None, [5]), 1, None, false);
    World(Cell(Some(SealedState(Some(s), [7])), false, [MakeRequest(s, 0).update], None), [7], true,
          Some(Fold(Some(s.target), [7])), [5, 7])
  }

  lemma InterruptedLeads()
    ensures var w := Interrupted(); Inv(w.cell) && Leading(w.cell) && TipMatches(w.cell, w.queue)
  {
    CutShortSound(Block(None, [5]));
    assert Interrupted().cell.log == CutShort(Block(None, [5])).cell.log;
  }

  /** The retry succeeds and leaves the record where it was. */
  lemma InterruptedRetry()
    ensures Inv(Interrupted().cell) && Seal(Interrupted(), 0).ok
    ensures var end := Last(Seal(Interrupted(), 0).states);
      end.queue == [] && end.record == Interrupted().record && History(Target(end.cell)) == [5, 7]
  {
    hide SealPublication;
    var w := Interrupted();
    InterruptedLeads();
    RetryFinishes(w.cell, w.queue, 0);
    RetryLeavesRecordBehind(w, 0);
    RetryEnds(w, 0);
    assert History(Some(Block(None, [5]))) == [5];
  }

  /** A retry drains the queue onto the tip that was already there. */
  lemma RetryEnds(w: World, key: KeyId)
    requires Inv(w.cell) && TipMatches(w.cell, w.queue) && w.queue != [] && Seal(w, key).ok
    ensures var end := Last(Seal(w, key).states);
      end.queue == [] && History(Target(end.cell)) == History(Target(w.cell))
  {
    hide SealPublication;
    SealPublishes(w, key);
    SealAfterEnds(w, SealPublication(w.cell, w.queue, key));
  }

  lemma SealAfterEnds(w: World, published: Trace)
    requires Publishes(w, published) && published.ok
    ensures var end := Last(SealAfter(w, published).states); end.queue == [] && History(Target(end.cell)) == Total(w)
  {
    var end := w.(cell := published.states[|published.states| - 1]);
    SealLast(w, published);
    DrainKeepsContent(end, RecordMatches(w), |Drain(end, RecordMatches(w))| - 1);
  }

  lemma RecordStaysBehind(w: World, published: Trace)
    requires Publishes(w, published) && published.ok && !RecordMatches(w) && w.record.value.queued != []
    ensures var end := Last(SealAfter(w, published).states); end.record == w.record && !RecordMatches(end)
  {
    SealAfterRecord(w, published);
    SealLast(w, published);
  }
}
