/**
 Publishing a ref: the pointer-first, crash-safe protocol over the ref pointer index and the ref log,
 and the ref states that `branch create`, `seal` and `branch close` hand it.

 Objects are content addressed, so an id is modelled as the content it names: two ids are equal exactly
 when the named payloads are. A ref is modelled on its own; other refs have their own pointers and logs.
 */
module Publication {
  import opened Bytes

  type PatchId(==) = nat
  type KeyId(==) = nat

  datatype Block = Block(parent: Option<Block>, patches: seq<PatchId>)

  datatype RefState = RefState(target: Block, updateSeq: nat, previous: Option<RefState>, closed: bool)

  /** A signed ref-log record. Signing is deterministic, so the key id stands for the signer. */
  datatype RefUpdate = RefUpdate(
    oldState: Option<RefState>, newState: RefState, newTarget: Block, updateSeq: nat, key: KeyId)

  datatype Request = Request(expectedPrevious: Option<RefState>, state: RefState, update: RefUpdate)

  /**
   What is durable for one ref: the pointer index's newest entry, whether the index ends in a torn
   entry, the ref's log records, and the record whose torn prefix ends the log, if any.
   */
  datatype Cell = Cell(pointer: Option<RefState>, pointerTorn: bool, log: seq<RefUpdate>, tail: Option<RefUpdate>)

  const UNPUBLISHED := Cell(None, false, [], None)

  function Tip(log: seq<RefUpdate>): Option<RefState> {
    if log == [] then None else Some(log[|log| - 1].newState)
  }

  // ----- publish_body -----

  /** `validate_coherent_publication` */
  predicate Coherent(p: Request) {
    && p.state.previous == p.expectedPrevious
    && p.update.oldState == p.expectedPrevious
    && p.update.newState == p.state
    && p.update.newTarget == p.state.target
    && p.update.updateSeq == p.state.updateSeq
  }

  /** The chain check of `log_position`: sequence numbers from 1, each record naming the state before it. */
  predicate LogSound(log: seq<RefUpdate>) {
    log == [] ||
    var front, last := log[..|log| - 1], log[|log| - 1];
    LogSound(front) && last.updateSeq == |log| && last.oldState == Tip(front)
  }

  datatype PublicationState = Ready | PointerLeading | Complete

  /** `classify_state` */
  function Classify(c: Cell, p: Request): Option<PublicationState> {
    if !LogSound(c.log) then None
    else
      var tip := Tip(c.log);
      var exactLast := c.log != [] && c.log[|c.log| - 1] == p.update;
      var proposed := Some(p.update.newState);
      if !exactLast && c.pointer == p.expectedPrevious && tip == p.expectedPrevious then Some(Ready)
      else if !exactLast && c.pointer == proposed && tip == p.expectedPrevious then Some(PointerLeading)
      else if exactLast && c.pointer == proposed && tip == proposed && Tip(c.log[..|c.log| - 1]) == p.expectedPrevious
      then Some(Complete)
      else None
  }

  /** Every durable state an operation passes through, in order, and whether it reports success at the end. */
  datatype Trace = Trace(states: seq<Cell>, ok: bool)

  /** The states of something larger that holds a cell, while the cell passes through `cells`. */
  function Lift<W>(cells: seq<Cell>, at: Cell -> W): (states: seq<W>)
    ensures |states| == |cells|
    ensures forall i :: 0 <= i < |cells| ==> states[i] == at(cells[i])
  {
    seq(|cells|, i requires 0 <= i < |cells| => at(cells[i]))
  }

  function LogAppend(c: Cell, u: RefUpdate): (states: seq<Cell>)
    ensures |states| >= 1
  {
    if c.log != [] && c.log[|c.log| - 1] == u then [c]
    else [c, c.(tail := Some(u)), c.(log := c.log + [u])]
  }

  /** The checks before the first write: what is left to do, unless the publication is refused. */
  function Accepted(c: Cell, p: Request, repairTail: bool): Option<PublicationState> {
    if !Coherent(p) || c.pointerTorn then None
    else
      var state := Classify(c, p);
      if state.Some? && c.tail.Some? && !(repairTail && state.value == PointerLeading && c.tail.value == p.update)
      then None
      else state
  }

  /**
   What an accepted publication writes, in order, with every torn intermediate state. The last step reads
   back what was written and changes nothing, so a publication can still fail with everything in place.
   */
  function Writes(c: Cell, p: Request, state: PublicationState): (states: seq<Cell>)
    ensures |states| >= 1 && states[0] == c
  {
    match state
    case Ready =>
      var named := c.(pointer := Some(p.state));
      var logged := named.(log := c.log + [p.update]);
      [c, c.(pointerTorn := true), named, named.(tail := Some(p.update)), logged, logged]
    case PointerLeading =>
      var clear, logged := c.(tail := None), c.(tail := None, log := c.log + [p.update]);
      if c.tail.Some? then [c, clear, clear.(tail := Some(p.update)), logged, logged]
      else [c, clear.(tail := Some(p.update)), logged, logged]
    case Complete => [c, c]
  }

  /** The publication procedure. */
  function Publish(c: Cell, p: Request, repairTail: bool): (t: Trace)
    ensures |t.states| >= 1 && t.states[0] == c
  {
    match Accepted(c, p, repairTail)
    case None => Trace([c], false)
    case Some(state) => Trace(Writes(c, p, state), true)
  }

  /** Where an operation stands when it is stopped after `stop` of its steps, by a crash or by an I/O error. */
  function Stopped(t: Trace, stop: nat): Cell
    requires |t.states| >= 1
  {
    if stop < |t.states| then t.states[stop] else t.states[|t.states| - 1]
  }

  predicate Succeeded(t: Trace, stop: nat) {
    t.ok && stop >= |t.states| - 1
  }

  /** The store's durable files, with a number of steps left before the process stops. */
  class RefStore {
    var cell: Cell
    var effects: nat

    constructor (cell: Cell, effects: nat)
      ensures this.cell == cell && this.effects == effects
    {
      this.cell := cell;
      this.effects := effects;
    }

    method Write(next: Cell) returns (written: bool)
      modifies this
      ensures written <==> old(effects) > 0
      ensures written ==> cell == next && effects == old(effects) - 1
      ensures !written ==> cell == old(cell) && effects == old(effects)
    {
      if effects == 0 {
        return false;
      }
      effects := effects - 1;
      cell := next;
      written := true;
    }

    /** `append_ref_container_record_with_replay` */
    method AppendLog(u: RefUpdate) returns (ok: bool)
      modifies this
      ensures var states := LogAppend(old(cell), u);
        && ok == (old(effects) >= |states| - 1)
        && cell == Stopped(Trace(states, true), old(effects))
      ensures ok ==> effects == old(effects) - (|LogAppend(old(cell), u)| - 1)
    {
      if cell.log != [] && cell.log[|cell.log| - 1] == u {
        return true;
      }
      var before := cell;
      ok := Write(before.(tail := Some(u)));
      if !ok { return; }
      ok := Write(before.(log := before.log + [u]));
    }

    /** `append_ref_pointer_entry` */
    method AppendPointer(next: RefState) returns (ok: bool)
      modifies this
      ensures ok <==> old(effects) >= 2
      ensures cell == if old(effects) == 0 then old(cell)
                      else if old(effects) == 1 then old(cell).(pointerTorn := true)
                      else old(cell).(pointer := Some(next))
      ensures ok ==> effects == old(effects) - 2
    {
      var before := cell;
      ok := Write(before.(pointerTorn := true));
      if !ok { return; }
      ok := Write(before.(pointer := Some(next)));
    }

    /** `ensure_agreement`: reads the pointer and the appended record back. */
    method Confirm() returns (ok: bool)
      modifies this
      ensures cell == old(cell)
      ensures ok <==> old(effects) > 0
      ensures ok ==> effects == old(effects) - 1
    {
      ok := Write(cell);
    }

    /** The writes of `publish_body`, once everything is checked. */
    method WriteAll(p: Request, state: PublicationState) returns (ok: bool)
      requires state == Ready ==> cell.tail.None?
      requires state == Complete <==> cell.log != [] && cell.log[|cell.log| - 1] == p.update
      requires state == Complete ==> cell.tail.None?
      modifies this
      ensures cell == Stopped(Trace(Writes(old(cell), p, state), true), old(effects))
      ensures ok == (old(effects) >= |Writes(old(cell), p, state)| - 1)
      ensures ok ==> effects == old(effects) - (|Writes(old(cell), p, state)| - 1)
    {
      if cell.tail.Some? {
        ok := Write(cell.(tail := None));
        if !ok { return; }
      }
      if state == Ready {
        ok := AppendPointer(p.state);
        if !ok { return; }
      }
      ok := AppendLog(p.update);
      if !ok { return; }
      ok := Confirm();
    }

    /** `publish_body`, under the ref lock and both container locks. */
    method PublishBody(p: Request, repairTail: bool) returns (ok: bool)
      modifies this
      ensures cell == Stopped(Publish(old(cell), p, repairTail), old(effects))
      ensures ok == Succeeded(Publish(old(cell), p, repairTail), old(effects))
      ensures ok ==> effects == old(effects) - (|Publish(old(cell), p, repairTail).states| - 1)
    {
      if !Coherent(p) || cell.pointerTorn {
        return false;
      }
      var state := Classify(cell, p);
      if state.None? {
        return false;
      }
      if cell.tail.Some? && (!repairTail || state.value != PointerLeading || cell.tail.value != p.update) {
        return false;
      }
      ok := WriteAll(p, state.value);
    }
  }

  // ----- the chain a ref's publications form -----

  function SeqOf(s: Option<RefState>): nat {
    if s.Some? then s.value.updateSeq else 0
  }

  /**
   How a published state follows the one before it: `close` keeps the target and alone sets `closed`;
   every other state after the first targets a block whose parent is the prior target.
   */
  predicate Follows(previous: Option<RefState>, s: RefState) {
    && s.previous == previous
    && s.updateSeq == SeqOf(previous) + 1
    && (s.closed ==> previous.Some? && s.target == previous.value.target)
    && (!s.closed && previous.Some? ==> s.target.parent == Some(previous.value.target))
  }

  predicate Records(u: RefUpdate, s: RefState) {
    u.newState == s && u.oldState == s.previous && u.newTarget == s.target && u.updateSeq == s.updateSeq
  }

  predicate Linked(log: seq<RefUpdate>) {
    log == [] ||
    var front, last := log[..|log| - 1], log[|log| - 1];
    Linked(front) && Follows(Tip(front), last.newState) && Records(last, last.newState)
  }

  predicate Settled(c: Cell) {
    c.pointer == Tip(c.log) && c.tail.None?
  }

  /** The pointer is one state ahead of the log; a torn record at the log's end can only be that state's. */
  predicate Leading(c: Cell) {
    && c.pointer.Some? && Follows(Tip(c.log), c.pointer.value)
    && (c.tail.Some? ==> Records(c.tail.value, c.pointer.value))
  }

  ghost predicate Inv(c: Cell) {
    Linked(c.log) && (Settled(c) || Leading(c))
  }

  /** A request that extends the chain it expects. */
  predicate Extends(p: Request) {
    Coherent(p) && Follows(p.expectedPrevious, p.state)
  }

  lemma {:induction false} LinkedSeq(log: seq<RefUpdate>)
    requires Linked(log)
    ensures LogSound(log)
    ensures SeqOf(Tip(log)) == |log|
  {
    if log != [] {
      LinkedSeq(log[..|log| - 1]);
    }
  }

  lemma {:induction false} LinkedAt(log: seq<RefUpdate>, i: nat)
    requires Linked(log) && i < |log|
    ensures Follows(Tip(log[..i]), log[i].newState) && Records(log[i], log[i].newState)
    decreases |log|
  {
    var front := log[..|log| - 1];
    if i < |front| {
      LinkedAt(front, i);
      assert front[..i] == log[..i] && front[i] == log[i];
    }
  }

  lemma {:induction false} LinkedFront(log: seq<RefUpdate>, k: nat)
    requires Linked(log) && k <= |log|
    ensures Linked(log[..k])
    decreases |log|
  {
    if k < |log| {
      LinkedFront(log[..|log| - 1], k);
      assert log[..|log| - 1][..k] == log[..k];
    } else {
      assert log[..k] == log;
    }
  }

  lemma LinkedAppend(log: seq<RefUpdate>, u: RefUpdate)
    requires Linked(log) && Follows(Tip(log), u.newState) && Records(u, u.newState)
    ensures Linked(log + [u])
  {
    assert (log + [u])[..|log|] == log;
  }

  lemma NamedKeepsInv(c: Cell, p: Request)
    requires Linked(c.log) && Extends(p) && Tip(c.log) == p.expectedPrevious && c.pointer == Some(p.state)
    ensures Inv(c.(tail := None)) && Inv(c.(tail := Some(p.update)))
  {
  }

  lemma LoggedKeepsInv(c: Cell, p: Request)
    requires Linked(c.log) && Extends(p) && Tip(c.log) == p.expectedPrevious && c.pointer == Some(p.state)
    ensures Inv(c.(tail := None, log := c.log + [p.update]))
  {
    LinkedAppend(c.log, p.update);
  }

  /** A state a publication can pass through, by what it has written. */
  ghost predicate Passed(c: Cell, p: Request, x: Cell) {
    var named := c.(pointer := Some(p.state));
    || x == c
    || x == c.(pointerTorn := true)
    || (&& Coherent(p) && Tip(c.log) == p.expectedPrevious
        && (|| x == named.(tail := None) || x == named.(tail := Some(p.update))
            || x == named.(tail := None, log := c.log + [p.update])))
  }

  lemma PublishPasses(c: Cell, p: Request, repairTail: bool, k: nat)
    requires k < |Publish(c, p, repairTail).states|
    ensures Passed(c, p, Publish(c, p, repairTail).states[k])
  {
  }

  lemma PassedKeepsInv(c: Cell, p: Request, x: Cell)
    requires Inv(c) && (Coherent(p) ==> Extends(p)) && Passed(c, p, x)
    ensures Inv(x)
  {
    if x != c && x != c.(pointerTorn := true) {
      var named := c.(pointer := Some(p.state));
      NamedKeepsInv(named, p);
      LoggedKeepsInv(named, p);
    }
  }

  /** Every durable state of a publication that extends its chain keeps the invariant; the log is never ahead. */
  lemma PublishKeepsInv(c: Cell, p: Request, repairTail: bool, k: nat)
    requires Inv(c) && (Coherent(p) ==> Extends(p)) && k < |Publish(c, p, repairTail).states|
    ensures Inv(Publish(c, p, repairTail).states[k])
  {
    PublishPasses(c, p, repairTail, k);
    PassedKeepsInv(c, p, Publish(c, p, repairTail).states[k]);
  }

  /** `end` has exactly the requested state published, its record last in the log, added at most once. */
  ghost predicate PublishedTo(c: Cell, p: Request, end: Cell) {
    && end.pointer == Some(p.state) && end.tail.None? && !end.pointerTorn
    && end.log != [] && end.log[|end.log| - 1] == p.update
    && (end.log == c.log || end.log == c.log + [p.update])
    && (end.log == c.log <==> c.log != [] && c.log[|c.log| - 1] == p.update)
  }

  /** A publication that reports success has published exactly its state, and its record is the log's last. */
  lemma PublishedIsSettled(c: Cell, p: Request, repairTail: bool)
    requires Publish(c, p, repairTail).ok
    ensures var t := Publish(c, p, repairTail); PublishedTo(c, p, t.states[|t.states| - 1])
  {
  }

  /** All that the callers of a publication need to know of it. */
  ghost predicate Honours(c: Cell, p: Request, t: Trace) {
    && |t.states| >= 1 && t.states[0] == c
    && (forall k :: 0 <= k < |t.states| ==> Inv(t.states[k]) && Passed(c, p, t.states[k]))
    && (t.ok ==> PublishedTo(c, p, t.states[|t.states| - 1]))
  }

  lemma PublishHonours(c: Cell, p: Request, repairTail: bool)
    requires Inv(c) && Extends(p)
    ensures Honours(c, p, Publish(c, p, repairTail))
  {
    var t := Publish(c, p, repairTail);
    forall k | 0 <= k < |t.states| ensures Inv(t.states[k]) && Passed(c, p, t.states[k]) {
      PublishPasses(c, p, repairTail, k);
      PassedKeepsInv(c, p, t.states[k]);
    }
    if t.ok {
      PublishedIsSettled(c, p, repairTail);
    }
  }

  /**
   The store checks that a request is coherent with itself, not that its sequence number follows: a
   settled ref accepts any coherent request that expects its state, and the chain survives exactly
   when the request really follows.
   */
  lemma StoreTrustsSequence(c: Cell, p: Request, repairTail: bool)
    requires Inv(c) && Settled(c) && !c.pointerTorn && Coherent(p) && p.expectedPrevious == c.pointer
    ensures Publish(c, p, repairTail).ok
    ensures var end := Stopped(Publish(c, p, repairTail), 4);
      Inv(end) <==> Follows(c.pointer, p.state)
  {
    LinkedSeq(c.log);
    var t := Publish(c, p, repairTail);
    NotTheLastRecord(c, p);
    assert t.states[4] == c.(pointer := Some(p.state), log := c.log + [p.update]);
    if Follows(c.pointer, p.state) {
      PublishKeepsInv(c, p, repairTail, 4);
    } else {
      assert (c.log + [p.update])[..|c.log|] == c.log;
    }
  }

  /** A first state that calls itself the fifth is published, and the chain is broken. */
  lemma SequenceSkipped(b: Block, key: KeyId)
    ensures var p := MakeRequest(RefState(b, 5, None, false), key);
      Inv(UNPUBLISHED) && Publish(UNPUBLISHED, p, false).ok && !Inv(Stopped(Publish(UNPUBLISHED, p, false), 5))
  {
    StoreTrustsSequence(UNPUBLISHED, MakeRequest(RefState(b, 5, None, false), key), false);
  }

  /** A state is not its own predecessor, so a new request's record is never already the last one. */
  lemma NotTheLastRecord(c: Cell, p: Request)
    requires Inv(c) && Coherent(p) && p.expectedPrevious == Tip(c.log)
    ensures c.log == [] || c.log[|c.log| - 1] != p.update
  {
    if c.log != [] && c.log[|c.log| - 1] == p.update {
      assert p.state.previous == Some(p.state);
      NoSelfPrevious(p.state);
    }
  }

  lemma NoSelfPrevious(s: RefState)
    ensures s.previous != Some(s)
  {
    if s.previous.Some? {
      assert s.previous.value < s;
    }
  }

  // ----- the three producers -----

  function MakeRequest(s: RefState, key: KeyId): Request {
    Request(s.previous, s, RefUpdate(s.previous, s, s.target, s.updateSeq, key))
  }

  /** `run_create`: refused when the name has a pointer or a surviving log. */
  function Create(c: Cell, target: Block, key: KeyId): (t: Trace)
    ensures |t.states| >= 1 && t.states[0] == c
  {
    if c.pointer.Some? || c.log != [] then Trace([c], false)
    else Publish(c, MakeRequest(RefState(target, 1, None, false), key), false)
  }

  /** `run_close`: refused when there is nothing to close or it is closed already. */
  function Close(c: Cell, key: KeyId): (t: Trace)
    ensures |t.states| >= 1 && t.states[0] == c
  {
    if c.pointer.None? || c.pointer.value.closed then Trace([c], false)
    else
      var current := c.pointer.value;
      Publish(c, MakeRequest(RefState(current.target, current.updateSeq + 1, Some(current), true), key), false)
  }

  /** The fresh path of `seal_active_no_audit`: one new block on the current target. */
  function SealedState(current: Option<RefState>, patches: seq<PatchId>): RefState {
    var parent := if current.Some? then Some(current.value.target) else None;
    RefState(Block(parent, patches), SeqOf(current) + 1, current, false)
  }

  predicate TipMatches(c: Cell, patches: seq<PatchId>) {
    c.pointer.Some? && c.pointer.value.target.patches == patches
  }

  /** What a seal publishes: the state that already holds these patches, or one with a new block. */
  function SealRequest(c: Cell, patches: seq<PatchId>, key: KeyId): Request {
    MakeRequest(if TipMatches(c, patches) then c.pointer.value else SealedState(c.pointer, patches), key)
  }

  function SealPublication(c: Cell, patches: seq<PatchId>, key: KeyId): (t: Trace)
    ensures |t.states| >= 1 && t.states[0] == c
  {
    Publish(c, SealRequest(c, patches, key), true)
  }

  // ----- every interleaving, with a stop after any effect -----

  datatype RefOp =
    | CreateRef(target: Block, key: KeyId, stop: nat)
    | SealRef(patches: seq<PatchId>, key: KeyId, stop: nat)
    | CloseRef(key: KeyId, stop: nat)
    | RepairTails

  /** `doctor`'s tail repairs: torn bytes at the end of the pointer index and of the log are cut off. */
  function TailsRepaired(c: Cell): Cell {
    c.(pointerTorn := false, tail := None)
  }

  function StepRef(c: Cell, op: RefOp): Cell {
    match op
    case CreateRef(target, key, stop) => Stopped(Create(c, target, key), stop)
    case SealRef(patches, key, stop) => Stopped(SealPublication(c, patches, key), stop)
    case CloseRef(key, stop) => Stopped(Close(c, key), stop)
    case RepairTails => TailsRepaired(c)
  }

  function RunRef(c: Cell, ops: seq<RefOp>): Cell
    decreases |ops|
  {
    if ops == [] then c else RunRef(StepRef(c, ops[0]), ops[1..])
  }

  lemma StoppedKeepsInv(c: Cell, p: Request, repairTail: bool, stop: nat)
    requires Inv(c) && (Coherent(p) ==> Extends(p))
    ensures Inv(Stopped(Publish(c, p, repairTail), stop))
  {
    var n := |Publish(c, p, repairTail).states|;
    PublishKeepsInv(c, p, repairTail, if stop < n then stop else n - 1);
  }

  lemma SealExtends(c: Cell, patches: seq<PatchId>, key: KeyId)
    requires Inv(c)
    ensures Extends(SealRequest(c, patches, key))
  {
    if TipMatches(c, patches) {
      CurrentFollows(c);
    }
  }

  lemma SealHonours(c: Cell, patches: seq<PatchId>, key: KeyId)
    requires Inv(c)
    ensures Honours(c, SealRequest(c, patches, key), SealPublication(c, patches, key))
  {
    SealExtends(c, patches, key);
    PublishHonours(c, SealRequest(c, patches, key), true);
  }

  lemma CloseKeepsInv(c: Cell, key: KeyId, stop: nat)
    requires Inv(c)
    ensures Inv(Stopped(Close(c, key), stop))
  {
    if c.pointer.Some? {
      var s := c.pointer.value;
      StoppedKeepsInv(c, MakeRequest(RefState(s.target, s.updateSeq + 1, Some(s), true), key), false, stop);
    }
  }

  lemma StepKeepsInv(c: Cell, op: RefOp)
    requires Inv(c)
    ensures Inv(StepRef(c, op))
  {
    match op {
      case CreateRef(target, key, stop) =>
        StoppedKeepsInv(c, MakeRequest(RefState(target, 1, None, false), key), false, stop);
      case SealRef(patches, key, stop) =>
        SealExtends(c, patches, key);
        StoppedKeepsInv(c, SealRequest(c, patches, key), true, stop);
      case CloseRef(key, stop) => CloseKeepsInv(c, key, stop);
      case RepairTails =>
    }
  }

  /** The current state of a sound ref follows its own predecessor. */
  lemma CurrentFollows(c: Cell)
    requires Inv(c) && c.pointer.Some?
    ensures Follows(c.pointer.value.previous, c.pointer.value)
  {
    if Settled(c) {
      LinkedAt(c.log, |c.log| - 1);
    }
  }

  /** Ref chain integrity over every run. */
  lemma {:induction false} RunKeepsInv(c: Cell, ops: seq<RefOp>)
    requires Inv(c)
    ensures Inv(RunRef(c, ops))
    decreases |ops|
  {
    if ops != [] {
      StepKeepsInv(c, ops[0]);
      RunKeepsInv(StepRef(c, ops[0]), ops[1..]);
    }
  }

  /** What the invariant says of the log, record by record. */
  lemma ChainIntegrity(ops: seq<RefOp>, i: nat)
    requires i < |RunRef(UNPUBLISHED, ops).log|
    ensures var log := RunRef(UNPUBLISHED, ops).log;
      && log[i].updateSeq == log[i].newState.updateSeq == i + 1
      && log[i].oldState == log[i].newState.previous == (if i == 0 then None else Some(log[i - 1].newState))
      && (log[i].newState.closed ==> i > 0 && log[i].newTarget == log[i - 1].newTarget)
      && (!log[i].newState.closed && i > 0 ==> log[i].newTarget.parent == Some(log[i - 1].newTarget))
  {
    RunKeepsInv(UNPUBLISHED, ops);
    var log := RunRef(UNPUBLISHED, ops).log;
    LinkedFront(log, i);
    LinkedSeq(log[..i]);
    LinkedAt(log, i);
    if i > 0 {
      LinkedAt(log, i - 1);
    }
  }

  // ----- finishing an interrupted publication -----

  /**
   From any interrupted publication, sealing the same patches again finishes it exactly when no torn
   pointer entry is left and any torn log record was written by the same signer. It adds one record.
   */
  lemma RetryFinishes(c: Cell, patches: seq<PatchId>, key: KeyId)
    requires Inv(c) && Leading(c) && TipMatches(c, patches)
    ensures SealPublication(c, patches, key).ok <==>
              !c.pointerTorn && (c.tail.Some? ==> c.tail.value.key == key)
    ensures SealPublication(c, patches, key).ok ==>
              var t := SealPublication(c, patches, key);
              var end := Stopped(t, |t.states|);
              Settled(end) && end.pointer == c.pointer && |end.log| == |c.log| + 1
  {
    LinkedSeq(c.log);
    var p := MakeRequest(c.pointer.value, key);
    NotTheLastRecord(c, p);
    NoSelfPrevious(p.state);
    assert Classify(c, p) == Some(PointerLeading);
  }

  /** Once complete, a repeat changes nothing, and only the same signer's is accepted. */
  lemma RepeatAfterComplete(c: Cell, patches: seq<PatchId>, key: KeyId)
    requires Inv(c) && Settled(c) && TipMatches(c, patches) && !c.pointerTorn
    ensures SealPublication(c, patches, key).ok <==> c.log[|c.log| - 1].key == key
    ensures var t := SealPublication(c, patches, key); forall k :: 0 <= k < |t.states| ==> t.states[k] == c
  {
    LinkedSeq(c.log);
    var p := MakeRequest(c.pointer.value, key);
    NoSelfPrevious(p.state);
    LinkedAt(c.log, |c.log| - 1);
  }

  // ----- when each producer goes through, and what it then leaves -----

  /** A ref that was at `c` and has `s` as its newest state, with one more record. */
  function Advanced(c: Cell, s: RefState, key: KeyId): Cell {
    Cell(Some(s), false, c.log + [RefUpdate(c.pointer, s, s.target, s.updateSeq, key)], None)
  }

  /** A settled ref takes a state that names its own as the one before. */
  lemma SettledAdvances(c: Cell, s: RefState, key: KeyId, repairTail: bool)
    requires Inv(c) && Settled(c) && !c.pointerTorn && s.previous == c.pointer
    ensures var t := Publish(c, MakeRequest(s, key), repairTail);
      t.ok && t.states[|t.states| - 1] == Advanced(c, s, key)
  {
    LinkedSeq(c.log);
    NotTheLastRecord(c, MakeRequest(s, key));
  }

  /** An interrupted publication refuses every state that names the pointer's as the one before. */
  lemma LeadingRefuses(c: Cell, s: RefState, key: KeyId, repairTail: bool)
    requires Inv(c) && !Settled(c) && s.previous == c.pointer
    ensures Publish(c, MakeRequest(s, key), repairTail) == Trace([c], false)
  {
    NoSelfPrevious(s);
    if c.pointer == Tip(c.log) {
      NoSelfPrevious(c.pointer.value);
    }
  }

  /** A branch is created exactly where there is nothing yet, not even a torn entry. */
  lemma CreateExactly(c: Cell, target: Block, key: KeyId)
    ensures Create(c, target, key).ok <==> c == UNPUBLISHED
    ensures var t := Create(c, target, key);
      if t.ok then t.states[|t.states| - 1] == Advanced(c, RefState(target, 1, None, false), key)
      else t.states == [c]
  {
  }

  /** A branch is closed exactly when it is there, open and fully published; it keeps its target. */
  lemma CloseExactly(c: Cell, key: KeyId)
    requires Inv(c)
    ensures Close(c, key).ok <==> c.pointer.Some? && !c.pointer.value.closed && Settled(c) && !c.pointerTorn
    ensures var t := Close(c, key);
      if t.ok then
        var current := c.pointer.value;
        t.states[|t.states| - 1]
        == Advanced(c, RefState(current.target, current.updateSeq + 1, Some(current), true), key)
      else t.states == [c]
  {
    if c.pointer.Some? && !c.pointer.value.closed {
      var current := c.pointer.value;
      var s := RefState(current.target, current.updateSeq + 1, Some(current), true);
      if !Settled(c) {
        LeadingRefuses(c, s, key, false);
      } else if !c.pointerTorn {
        SettledAdvances(c, s, key, false);
      }
    }
  }

  /**
   Patches other than the tip's own are sealed exactly onto a fully published ref; the tip's own are
   published again exactly as far as that is left to do, and only by their signer.
   */
  lemma SealExactly(c: Cell, patches: seq<PatchId>, key: KeyId)
    requires Inv(c)
    ensures SealPublication(c, patches, key).ok <==>
              !c.pointerTorn &&
              if !TipMatches(c, patches) then Settled(c)
              else if Settled(c) then c.log[|c.log| - 1].key == key
              else c.tail.Some? ==> c.tail.value.key == key
    ensures !TipMatches(c, patches) ==>
              var t := SealPublication(c, patches, key);
              if t.ok then
                var parent := if c.pointer.Some? then Some(c.pointer.value.target) else None;
                t.states[|t.states| - 1]
                == Advanced(c, RefState(Block(parent, patches), |c.log| + 1, c.pointer, false), key)
              else t.states == [c]
  {
    LinkedSeq(c.log);
    if c.pointerTorn {
    } else if TipMatches(c, patches) {
      if Settled(c) { RepeatAfterComplete(c, patches, key); } else { RetryFinishes(c, patches, key); }
    } else if Settled(c) {
      SettledAdvances(c, SealedState(c.pointer, patches), key, true);
    } else {
      LeadingRefuses(c, SealedState(c.pointer, patches), key, true);
    }
  }
}
