# prikk, modelled in Dafny

Prikk is a version control system whose objects are content addressed and signed. This project models the
parts of it where a mistake would silently change an identity, lose work, or make one state pass for
another, and proves what those parts promise, for every input, every run and every point at which a process
can stop.

**Identity bytes.** `Canonical` is the tagged wire format every object id is computed from: the writer with
its nested records, the strict cursor that reads it, and a recursive decoder. `RefPayload` is one real
decoder over that format. `ObjectIds` is the id preimage, the type codes and the hex form. `Signatures` and
`Envelope` are the signature list that is kept in strict canonical order.

**Publishing.** `Publication` is the pointer-first protocol that moves a ref, with its torn intermediate
states and the read-back that can still fail once all is written. `Seal` is `prikk seal`: one block per
queue, retries, and the gated record of what the worktree was made to match. `Materialize` plans and applies
a change of worktree, which is a tree of files and directories. `SyncSeal` is `sync seal` and `branch create`
onto the current branch: clean check, marker, publications, then materialize or abandon, and the
`branch switch` that the marker names as the way out.

**Files outside the repository.** `FileSystem` is a directory with separate volatile and durable views and a
power loss that may keep or lose each unsynced change on its own; `FileTree` applies the same rules to every
directory of a tree. `DurableOutput` (one file) and `KeyMaterial` (a pair of files) write into the former,
`Extract` (a whole tree) into the latter.

**Input.** `BoundedRead` is the bounded reader, `Doctor` the flag grammar of `doctor` with its dispatcher,
`Config` the settings file. `Bytes`, `Order` and `Text` hold what these share.

Code that changes state step by step is modelled as classes and loops. A class that can be stopped carries a
budget or a list of fates for its effects, so that one contract covers an error or a crash after any of
them; where a run matters, the contract is tied to a function that lists every durable state in order, and
the safety results are proved about that function.

Safety alone would hold of a program that refuses everything, and a round trip holds of any layout. So each main
operation also has a result that says exactly when it goes through and what it then leaves, and each format one that
places every byte.

Some promises in the repository's comments do not hold of its code as stated. Each of these is proved with a run
that breaks it, named first, and with the exact condition under which the promise does hold:

- A batch seal whose first real claim writes its pointer entry and then fails, before its record or even after
  it, clears the marker although the tip has moved (`SyncSeal.OrphanReached`, `SyncSeal.OrphansExactly`). With a
  baseline record the worktree is still judged correctly; without one it is not, if bytes changed
  (`SyncSeal.OrphanMisjudged`, `SyncSeal.JudgedRightExactly`).
- The marker names `branch switch` as the way out. On a branch fresh from `init` that switch refuses until the
  first pointer entry is in (`SyncSeal.FreshBranchStuck`, `SyncSeal.CreateStuckBeforePointer`), and so it does
  over a queued patch the record does not know (`SyncSeal.UnrecordedQueueStuck`). `SyncSeal.RecoveryExactly`
  says when every marked state can be left.
- Only the state after the last claim is checked against the worktree. A batch that stops at an earlier one can
  publish a tip that the worktree is in the way of (`SyncSeal.FileToDirectoryStuck`, `SyncSeal.PrecheckSuffices`).
- Nothing keeps a state from holding a file and another one below it. Such a tip passes every check, is
  published, and can not be written (`SyncSeal.UnwritableTipPublished`, `Materialize.Apply`).
- A tracked file can not become a directory, nor a directory with tracked files a file, over a clean worktree
  (`SyncSeal.FileToDirectoryRefused`, `Materialize.TidyAdmits`); and a directory left behind by a deletion stays in
  the way (`Materialize.LeftoverDirectory`, `Materialize.CleanAdmits`).
- The clean check does not look at modes, so a mode the user set is overwritten (`SyncSeal.ModeResetReached`,
  `Materialize.ModeSurvives`).
- A record made over a queue that was drained since, as a retried seal leaves it, is judged by its block alone, so
  an untouched worktree can look edited (`SyncSeal.DrainedRecordMisjudged`, `SyncSeal.DrainedRecordJudged`).
- A seal that finds no record takes the worktree for current, and then records a claim the worktree does not
  meet (`Seal.BlindSealReachable`, `Seal.SealHonestIffNotBlind`).
- A queue equal to the tip's own patches is drained without a new block (`Seal.RepeatedQueueDrained`,
  `Seal.SealAddsBlockIffFresh`).
- The ref store does not check that a sequence number follows (`Publication.SequenceSkipped`,
  `Publication.StoreTrustsSequence`).
- `branch switch` clears the marker before it rewrites the record (`SyncSeal.RecordWindowReached`,
  `SyncSeal.SwitchRecordWindow`), and without a record it finishes an interrupted run only if every file is
  already there (`SyncSeal.UnrecordedStuck`, `SyncSeal.RecoveryWithoutRecord`).
- Neither key file is synced, so a power loss can keep a seed and lose its id
  (`KeyMaterial.LegacyIdAfterPowerLoss`, `KeyMaterial.PowerLossExactly`).
- An accepted setting can be too long for its own reader (`Config.OverlongSetting`, `Config.SetThenRead`).
- Two signatures that differ only in their timestamp are duplicates, so the first to arrive is kept
  (`Envelope.FirstTimestampWins`, for every such pair).

## Model

| member | source | states |
|---|---|---|
| `Canonical.HeadOfEncode` | crates/prikk-object/src/payload/refs.rs:349-410 | The first field of any encoding reads back as that field, whatever bytes follow. |
| `Canonical.EncodeOfHead` | crates/prikk-object/src/payload/refs.rs:349-410 | A field that was read is the one whose encoding starts the input. |
| `Canonical.ParseOfEncode` | crates/prikk-object/src/canonical.rs:212-232 | A list of fields with nonzero, non-decreasing tags parses back from its bytes. |
| `Canonical.EncodeOfParse` | crates/prikk-object/src/payload/refs.rs:349-410 | What parses is in tag order and re-encodes to the same bytes. |
| `Canonical.RoundTrip` | crates/prikk-object/src/canonical.rs:101-232 | The recursive decoder returns exactly the typed field tree that was written, at every nesting depth. |
| `Canonical.Strict` | crates/prikk-object/src/canonical.rs:101-232 | The decoder accepts nothing but encodings: its result is well formed at every depth and re-encodes to the input. |
| `Canonical.EncodeInjective` | crates/prikk-object/src/canonical.rs:53-83 | Two well-formed records share bytes exactly when they are the same record. |
| `Bytes.ToBEAt` | crates/prikk-object/src/canonical.rs:226-229 | Every byte of a number by its place: most significant first, at any width. |
| `Canonical.FieldLayout` | crates/prikk-object/src/canonical.rs:212-232 | Each byte of a field by its position: two of tag, one of wire type, eight of length, then the value. |
| `Canonical.RecordLayout` | crates/prikk-object/src/canonical.rs:46-51 | The bytes of a record's field start where those of the fields before it end. |
| `Canonical.NumberLayout` | crates/prikk-object/src/canonical.rs:101-150 | Numbers take their full width, most significant byte first. |
| `Canonical.KindByte` | crates/prikk-object/src/canonical.rs:15-38 | The third byte of a field is the code of its kind of value, for each of the eleven kinds. |
| `Canonical.CodecSample` | crates/prikk-object/src/vectors/snapshot.txt:16 | The repository's pinned sample of the codec, byte by byte. |
| `Canonical.CanonicalWriter.FieldRaw` | crates/prikk-object/src/canonical.rs:212-232 | A field is appended exactly when its tag is nonzero and not below the last one; a refusal changes nothing. |
| `Canonical.CanonicalWriter.WriteField` | crates/prikk-object/src/canonical.rs:101-210 | A typed field, nested records included, is accepted exactly when its tags are in order at every depth, and appends its encoding. |
| `Canonical.CanonicalWriter.WriteFields` | crates/prikk-object/src/canonical.rs:156-210 | A whole record is accepted exactly when all its tags are in order; a refusal leaves a prefix of its fields. |
| `Canonical.ToCanonicalBytes` | crates/prikk-object/src/canonical.rs:46-51 | Succeeds exactly on tags in order, and then its bytes decode to what was given. |
| `Canonical.CanonicalCursor.ReadExact` | crates/prikk-object/src/payload/refs.rs:396-410 | Yields the next bytes exactly when that many are left, else moves nothing. |
| `Canonical.CanonicalCursor.NextField` | crates/prikk-object/src/payload/refs.rs:349-377 | One field further, the end, or a refusal, exactly as the strict grammar says. |
| `Order.BytesCmpLaws` | crates/prikk-object/src/canonical.rs:237-245 | Byte order is antisymmetric and equal only on equal strings. |
| `Order.BytesCmpExactly` | crates/prikk-object/src/canonical.rs:237-245 | A byte string comes first exactly when it is a proper prefix or smaller where the two first differ. |
| `Order.StrictlySortedAllPairs` | crates/prikk-object/src/canonical.rs:237-245 | The adjacent test means that all pairs ascend, so nothing occurs twice. |
| `RefPayload.Decode` | crates/prikk-object/src/payload/refs.rs:69-175 | The cursor loop returns a ref state exactly for the bytes that ref state encodes to, under the schema rule for closed states. |
| `RefPayload.DecodesExactlyEncodings` | crates/prikk-object/src/payload/refs.rs:69-218 | Decoding and encoding of ref states are mutual inverses on exactly the decodable states. |
| `RefPayload.RefStateLayout` | crates/prikk-object/src/payload/refs.rs:177-197 | Every byte of a ref state's identity, field by field. |
| `ObjectIds.FromCode` | crates/prikk-object/src/id.rs:19-120 | A code decodes to a type exactly when it is that type's code, and no retired code decodes. |
| `ObjectIds.CodesExactly` | crates/prikk-object/src/id.rs:19-120 | The nine types from 1 up in their order, and the one past the retired code. |
| `ObjectIds.PreimageInjective` | crates/prikk-object/src/id.rs:169-183 | The id preimage determines type, schema version and payload. |
| `ObjectIds.PreimageLayout` | crates/prikk-object/src/id.rs:169-183 | Each byte of the preimage by its position: domain, type code, schema version, length, payload. |
| `ObjectIds.SharedIdIsCollision` | crates/prikk-object/src/id.rs:169-183 | Two different objects share an id only if the hash itself collides. |
| `ObjectIds.SignedBytesInjective` | crates/prikk-object/src/signature.rs:121-144 | What is signed determines algorithm, type, id, role and key id. |
| `ObjectIds.SignedLayout` | crates/prikk-object/src/signature.rs:121-144 | Each byte that is signed by its position: domain, algorithm, type, id, role, key id with its length. |
| `ObjectIds.DomainsSeparate` | crates/prikk-object/src/signature.rs:121-144 | What is signed is never what is hashed into an id. |
| `ObjectIds.ToHex` | crates/prikk-hash/src/lib.rs:76-91 | The loop prints two lowercase digits a byte, high nibble first. |
| `ObjectIds.FromStr` | crates/prikk-object/src/id.rs:203-236 | Accepts a string exactly when it prints some 32-byte id, and returns that id. |
| `ObjectIds.HexInjective` | crates/prikk-hash/src/lib.rs:76-91 | Printing never merges two byte strings. |
| `Signatures.CmpLaws` | crates/prikk-object/src/signature.rs:172-180 | The canonical order is antisymmetric, and equal exactly on the tuple that leaves out the timestamp. |
| `Signatures.CmpExactly` | crates/prikk-object/src/signature.rs:172-180 | Key id decides, then role, then the signature bytes, the byte strings in lexicographic order. |
| `Signatures.CmpTransitive` | crates/prikk-object/src/signature.rs:172-180 | The canonical order is transitive, strictly where either step is. |
| `Signatures.SortedAdjacentDuplicates` | crates/prikk-object/src/envelope.rs:71-97 | Equal neighbours in the sorted copy mean exactly that two positions of the original compare equal. |
| `Signatures.AscendingByAdjacent` | crates/prikk-object/src/envelope.rs:71-117 | No duplicate and no adjacent descent leaves exactly the lists that ascend over all pairs. |
| `Signatures.AscendingUnique` | crates/prikk-object/src/envelope.rs:120-136 | Strictly ascending lists with the same contents are the same list. |
| `Signatures.BinarySearch` | crates/prikk-object/src/envelope.rs:120-136 | Finds an equal signature, or the one place where the list splits around the new one. |
| `Signatures.InsertionPoint` | crates/prikk-object/src/envelope.rs:120-136 | Inserting where the search says keeps the list strictly ascending and is the sorted insertion. |
| `Envelope.ObjectEnvelope.Validate` | crates/prikk-object/src/envelope.rs:60-68 | Accepts exactly a nonzero schema version with only valid signatures. |
| `Envelope.ObjectEnvelope.SignatureIssues` | crates/prikk-object/src/envelope.rs:71-97 | Each flag means what it says of the stored list, over all pairs. |
| `Envelope.ObjectEnvelope.ValidateStrict` | crates/prikk-object/src/envelope.rs:99-117 | Accepts exactly the envelopes with a nonzero schema, valid and well-shaped signatures, strictly ascending over all pairs. |
| `Envelope.ObjectEnvelope.AddSignature` | crates/prikk-object/src/envelope.rs:120-136 | Inserts in order and leaves a strict envelope, or refuses and changes nothing. |
| `Envelope.AddAllExactly` | crates/prikk-object/src/envelope.rs:99-136 | A run of additions succeeds exactly when all are well shaped and no tuple occurs twice, and then holds exactly those signatures. |
| `Envelope.AddAllConfluent` | crates/prikk-object/src/envelope.rs:120-136 | Any two arrival orders give the same envelope, or both are refused. |
| `Envelope.FirstTimestampWins` | crates/prikk-object/src/signature.rs:172-180 | A second signature is refused exactly when it differs at most in its timestamp. |
| `Envelope.EnvelopeBytesInjective` | crates/prikk-object/src/envelope.rs:139-148 | Envelope bytes determine type, schema, payload and every signature. |
| `Envelope.EnvelopeLayout` | crates/prikk-object/src/envelope.rs:139-148 | Every byte of an envelope: type, schema, payload, then a record for each signature with its five fields. |
| `Publication.RefStore.AppendPointer` | crates/prikk-store/src/refs/publication.rs:188-195 | Moves the pointer through the torn entry; the record log is untouched. |
| `Publication.RefStore.AppendLog` | crates/prikk-store/src/refs/publication.rs:186-212 | Appends one record unless it is already the last, passing through the torn record. |
| `Publication.RefStore.Confirm` | crates/prikk-store/src/refs/publication.rs:369-402 | Reads back and changes nothing, but can fail. |
| `Publication.RefStore.WriteAll` | crates/prikk-store/src/refs/publication.rs:147-213 | The writes of an accepted publication, cut short anywhere, in exactly the listed order of states. |
| `Publication.RefStore.PublishBody` | crates/prikk-store/src/refs/publication.rs:99-216 | Stopped after any number of steps, the store is in that many-th state of the publication; success means all of them, the final read-back included. |
| `Publication.PublishKeepsInv` | crates/prikk-store/src/refs/publication.rs:99-216 | Every durable state of a publication that extends its chain keeps it: the log is linked, and the pointer is level with it or one ahead. |
| `Publication.PublishedIsSettled` | crates/prikk-store/src/refs/publication.rs:283-402 | A reported success means the pointer is the published state and its record is the last, added at most once. |
| `Publication.StoreTrustsSequence` | crates/prikk-store/src/refs/publication.rs:236-281 | A settled ref accepts any self-coherent request for its state; the chain survives exactly when the request really follows. |
| `Publication.SequenceSkipped` | crates/prikk-store/src/refs/publication.rs:236-281 | A first state that calls itself the fifth is published, and the chain is broken. |
| `Publication.StepKeepsInv` | crates/prikk-cli/src/branch.rs:332-383 | Create, seal, close and tail repair, each stopped anywhere, keep the chain. |
| `Publication.CreateExactly` | crates/prikk-cli/src/branch.rs:332-383 | Goes through exactly where nothing is published, and leaves the first state, open, with its one record; else nothing changes. |
| `Publication.CloseExactly` | crates/prikk-cli/src/branch.rs:518-638 | Goes through exactly for an open, fully published branch, and leaves the same target closed under the next sequence number, with one more record; else nothing changes. |
| `Publication.SealExactly` | crates/prikk-cli/src/seal.rs:248-312 | New patches go exactly onto a fully published ref, as one block on its target; the tip's own are finished or repeated exactly by their signer. |
| `Publication.RunKeepsInv` | crates/prikk-cli/src/branch.rs:585-638 | So does every interleaving of them. |
| `Publication.ChainIntegrity` | crates/prikk-cli/src/seal.rs:248-312 | In every run the records carry 1, 2, 3, ...; each names the one before; close keeps the target and alone closes; each sealed block has the prior target as parent. |
| `Publication.RetryFinishes` | crates/prikk-cli/src/seal/support.rs:141-177 | Sealing again finishes an interrupted publication exactly when no torn pointer entry is left and a torn record is the same signer's. |
| `Publication.RepeatAfterComplete` | crates/prikk-store/src/refs/publication.rs:283-322 | A complete publication is repeated without effect, and only by its own signer. |
| `Seal.SealCommand.PublishQueue` | crates/prikk-cli/src/seal.rs:202-312 | Finishes the publication that already holds the queue, or publishes one new block. |
| `Seal.SealCommand.CleanUp` | crates/prikk-cli/src/seal.rs:313-320 | Queue, ownership and the due record, in order, cut short anywhere. |
| `Seal.SealCommand.Execute` | crates/prikk-cli/src/seal.rs:107-327 | Stopped after any number of effects, the command is in that many-th state of the seal. |
| `Seal.SealSucceedsExactly` | crates/prikk-cli/src/seal.rs:107-327 | A seal goes through exactly for an owned, non-empty queue over a ref that can take it. |
| `Seal.SealLeaves` | crates/prikk-cli/src/seal.rs:187-320 | It leaves the block at the tip, the queue empty and released, and the record at the new tip exactly when there was none or it was of just what was sealed; else the record is as it was. |
| `Seal.CommitThenSeal` | crates/prikk-cli/src/seal.rs:314-320 | Commit and seal, both complete: the patch is history, and worktree and record are at the tip. |
| `Seal.ResyncLeaves` | crates/prikk-store/src/branch_switch.rs:250-358 | A finished resync leaves worktree and record at the tip, and only a queue refuses it. |
| `Seal.CloseBranchExactly` | crates/prikk-cli/src/branch.rs:533-638 | A branch is closed exactly when it is open, fully published and has no queue of its own; it keeps target and history, all else stays, and a second close is refused. |
| `Seal.PublicationProgress` | crates/prikk-cli/src/seal.rs:202-312 | Whatever a publication leaves, an attempt has moved only from untouched to pointer ahead to complete. |
| `Seal.AttemptProgress` | crates/prikk-cli/src/seal.rs:107-327 | One attempt, stopped anywhere, loses no patch; success means the block is in and the queue is empty. |
| `Seal.AttemptsProgress` | crates/prikk-cli/src/seal.rs:107-327 | The same over any number of interrupted attempts with any keys, with tail repairs between them. |
| `Seal.SealIsIdempotent` | crates/prikk-cli/src/seal.rs:107-327 | From a fresh queue, any crashes, repairs and retries that end in success add exactly one block holding the queue in order, and one log record. |
| `Seal.RepairThenSeal` | crates/prikk-cli/src/seal/support.rs:141-177 | After any attempts a repair lets the next seal go through, exactly unless the block is already logged under another signer. |
| `Seal.SealAddsBlockIffFresh` | crates/prikk-cli/src/seal/support.rs:48-65 | A successful seal adds its queue to history exactly when the queue differs from the tip's own patches. |
| `Seal.RepeatedQueueDrained` | crates/prikk-cli/src/seal/support.rs:48-65 | A queue that repeats the tip's patches is drained and history stays as it was. |
| `Seal.SealHonestIffNotBlind` | crates/prikk-cli/src/seal.rs:187-234 | A successful seal leaves an honest record exactly when it did not start without a record over a lagging worktree. |
| `Seal.StepHonest` | crates/prikk-cli/src/seal.rs:314-320 | Commit, draft, seal and resync, stopped anywhere, keep the record within what the worktree holds. |
| `Seal.RunHonest` | crates/prikk-store/src/worktree_baseline.rs:393-480 | So does every run in which no seal starts blind and no new patch repeats the tip. |
| `Seal.BlindSealReachable` | crates/prikk-store/src/worktree_baseline.rs:393-403 | After a record write cut short, a draft and a seal leave a record claiming a patch the worktree was never given. |
| `Seal.RetryLeavesRecordBehind` | crates/prikk-cli/src/seal.rs:217-234 | Retrying an interrupted seal, the first of a branch included, leaves an existing record behind the new tip. |
| `Seal.InterruptedRetry` | crates/prikk-cli/src/seal.rs:217-234 | A seal stopped after its pointer entry: the retry succeeds and leaves the record where it was. |
| `Materialize.PlanTarget` | crates/prikk-store/src/worktree_materialize.rs:229-255 | Splits the target's files exactly into those to write, to keep and in the way; gives up exactly when one can not be reached. |
| `Materialize.PlanPrior` | crates/prikk-store/src/worktree_materialize.rs:256-271 | Finds exactly the old files to delete and those that were changed; gives up exactly when one can not be reached. |
| `Materialize.PlanMaterialization` | crates/prikk-store/src/worktree_materialize.rs:218-277 | Each list of the plan is exact, and nothing is in the way exactly when there is a plan and its list says so. |
| `Materialize.EnsureParents` | crates/prikk-store/src/foundation/fsutil/anchored/directory.rs:236-330 | Makes the missing directories one by one and fails exactly at something that is no directory. |
| `Materialize.Apply` | crates/prikk-store/src/worktree_materialize.rs:279-304 | Succeeds exactly when no target file lies below another, and then ends in the materialized worktree; every state on the way is a tree and leaves each path as it was or as the target has it. |
| `Materialize.MaterializedMatches` | crates/prikk-store/src/worktree_materialize.rs:485-529 | The result holds the target, bytes and modes, no other old file, and everything untracked as it was. |
| `Materialize.OnlyKnownBytesReplaced` | crates/prikk-store/src/worktree_materialize.rs:229-304 | Bytes that have disappeared, at any point on the way, are bytes the old state is known to hold at that path. |
| `Materialize.ModeSurvives` | crates/prikk-store/src/worktree_materialize.rs:279-304 | A file keeps its mode exactly when it is untracked, or stays with just that mode. |
| `Materialize.CleanAdmits` | crates/prikk-store/src/worktree_materialize.rs:229-271 | Over a clean worktree without untracked files, nothing is in the way exactly when no target file is where a directory is or below a tracked file. |
| `Materialize.TidyAdmits` | crates/prikk-store/src/worktree_materialize.rs:229-271 | With no spare directories either, exactly when no tracked path is above a target path or the other way round. |
| `Materialize.LeftoverDirectory` | crates/prikk-store/src/worktree_materialize.rs:300-303 | Deleting a file leaves its directory, which is then in the way of a file of that name. |
| `Materialize.ResumeAfterCrash` | crates/prikk-store/src/worktree_materialize.rs:479-494 | From any crash state, planning again meets no obstacle exactly unless something already written stands against an old path, and ends in the same worktree. |
| `Materialize.CleanNeverCrossed` | crates/prikk-store/src/worktree_materialize.rs:479-494 | From a clean worktree nothing written ever stands against an old path. |
| `Materialize.SwitchFinishes` | crates/prikk-store/src/branch_switch.rs:250-443 | From any crash state of a clean start, no file stands against the switch named by the marker, and it finishes the job. |
| `Materialize.SwitchWithoutRecord` | crates/prikk-store/src/branch_switch.rs:403-443 | Without a record, no file stands against the switch exactly when the target's bytes are everywhere already. |
| `SyncSeal.SimulateBatch` | crates/prikk-store/src/seal_from_accepted.rs:551-618 | The simulation's loop yields the history after the last claim that folds. |
| `SyncSeal.SimulatedExactly` | crates/prikk-store/src/seal_from_accepted.rs:572-612 | It takes every claim before the first that does not fold, whatever else the loop will say of them. |
| `SyncSeal.ClaimPublishes` | crates/prikk-store/src/seal_from_accepted.rs:310-386 | A claim with new patches passes through six states: the pointer is in from the third on, the record from the fifth, and only the sixth, after the read-back, counts. |
| `SyncSeal.BatchKeepsInv` | crates/prikk-cli/src/sync.rs:523-554 | Every ref state a batch passes through keeps the chain. |
| `SyncSeal.BatchConserves` | crates/prikk-cli/src/sync.rs:523-554 | A batch without failure extends history by exactly its claims' patches in order, and the log by one record per sealed claim. |
| `SyncSeal.BatchExactly` | crates/prikk-cli/src/sync.rs:523-554 | Without I/O errors a batch seals exactly the claims before the first that is refused, and fails exactly if one is. |
| `SyncSeal.QueueBlocksPublishing` | crates/prikk-store/src/seal_from_accepted.rs:282-291 | Over any queue a batch publishes nothing and moves nothing. |
| `SyncSeal.UncountedMove` | crates/prikk-cli/src/sync.rs:523-554 | The tip moves without being counted exactly when the first real claim fails after its pointer entry, and then to that claim's block. |
| `SyncSeal.CoveredUnlessOrphaned` | crates/prikk-cli/src/sync.rs:485-613 | In every state a batch can be stopped in, the worktree is at the tip or the marker is set, exactly unless the batch orphans its tip. |
| `SyncSeal.OrphansExactly` | crates/prikk-cli/src/sync.rs:555-583 | It orphans its tip exactly when the first real claim gets its pointer entry, fails after that, and changes files. |
| `SyncSeal.OrphanReached` | crates/prikk-cli/src/sync.rs:555-583 | A clean, covered, recorded repository and a batch that ends with the marker clear and the tip not in the worktree. |
| `SyncSeal.JudgedRightExactly` | crates/prikk-store/src/worktree_materialize.rs:119-174 | With the marker clear the clean check is truthful in every state, exactly unless there is no record and the first real claim fails after its pointer entry and changes bytes. |
| `SyncSeal.CleanExactly` | crates/prikk-store/src/patch_replay/recorded_baseline.rs:34-85 | What the clean check compares with, record or not, and that it compares bytes. |
| `SyncSeal.OrphanMisjudged` | crates/prikk-cli/src/sync.rs:555-583 | A clean unrecorded repository and a batch that leaves a worktree which looks edited. |
| `SyncSeal.RecoveryWithRecord` | crates/prikk-store/src/branch_switch.rs:88-358 | From every marked state the switch goes through exactly when branch, queue and worktree state allow it, nothing was in the way and the tip can be written, and leaves what an uninterrupted run would have left. |
| `SyncSeal.BarredAtStart` | crates/prikk-store/src/branch_switch.rs:133-205 | A marked state from which the switch is not allowed is one with the tip of the start, which did not allow it either. |
| `SyncSeal.RecoveryExactly` | crates/prikk-store/src/branch_switch.rs:88-358 | Every unobstructed marked state can be left by the switch exactly when, at the start, the branch was open or unborn and not in step with its record, and any queue was its own and recorded. |
| `SyncSeal.FreshBranchStuck` | crates/prikk-store/src/branch_switch.rs:144-158 | After `init`, a batch stopped between marker and pointer entry leaves a marker whose way out refuses. |
| `SyncSeal.UnrecordedQueueStuck` | crates/prikk-store/src/branch_switch.rs:195-205 | So does one stopped over a queued patch that the record does not know. |
| `SyncSeal.UnrecordedStuck` | crates/prikk-store/src/branch_switch.rs:403-443 | Without a record, a batch stopped before its first file leaves a marker whose way out refuses. |
| `SyncSeal.RecoveryWithoutRecord` | crates/prikk-store/src/branch_switch.rs:88-358 | Without a record, only a published open branch with all its files in place lets the switch through. |
| `SyncSeal.DrainedRecordJudged` | crates/prikk-store/src/patch_replay/recorded_baseline.rs:34-85 | A record over a drained queue passes an untouched worktree exactly when the drained patches kept the bytes of every file of its block. |
| `SyncSeal.DrainedRecordMisjudged` | crates/prikk-store/src/patch_replay/recorded_baseline.rs:34-85 | A retried seal, and the worktree at its tip that looks edited afterwards. |
| `SyncSeal.SwitchRecordWindow` | crates/prikk-store/src/branch_switch.rs:335-348 | Stopped between marker and record, the worktree holds the tip and passes the clean check exactly when the tip kept the bytes of every recorded file. |
| `SyncSeal.RecordWindowReached` | crates/prikk-store/src/branch_switch.rs:335-348 | A worktree in that window, at its tip, that looks edited. |
| `SyncSeal.SimulationAgrees` | crates/prikk-store/src/seal_from_accepted.rs:551-618 | When it can see every refusal, the simulated history is the one the batch publishes. |
| `SyncSeal.PrecheckSuffices` | crates/prikk-store/src/seal_from_accepted.rs:486-500 | Then no file is in the way of what was published. |
| `SyncSeal.FileToDirectoryRefused` | crates/prikk-store/src/foundation/fsutil/anchored/read.rs:307-320 | A claim that replaces a tracked file by a directory is refused over a clean worktree. |
| `SyncSeal.FileToDirectoryStuck` | crates/prikk-store/src/seal_from_accepted.rs:551-618 | Followed by one that turns it back and fails, it is published, and the switch is stuck. |
| `SyncSeal.UnwritableTipPublished` | crates/prikk-store/src/seal_from_accepted.rs:486-500 | A tip with a file below a file passes every check, is published, and no switch ever goes through. |
| `SyncSeal.ModeResetReached` | crates/prikk-store/src/worktree_status.rs:366-376 | A file whose mode the user changed is admitted and comes out with the mode of the tip. |
| `SyncSeal.CreateCovered` | crates/prikk-cli/src/branch.rs:299-391 | Every state of `branch create` onto the current branch is covered and truthful, a failed publication included. |
| `SyncSeal.CreateRecovery` | crates/prikk-cli/src/branch.rs:299-391 | From every marked state of a create the switch does what it does for a batch. |
| `SyncSeal.CreateStuckBeforePointer` | crates/prikk-cli/src/branch.rs:373-391 | On a branch in step with its record, the switch can finish a stopped create exactly once its pointer entry is in, the worktree is not provisional and the tip can be written. |
| `SyncSeal.ForeignQueue` | crates/prikk-cli/src/branch.rs:275-280 | Another branch's queue counts for nothing; a branch with a queue of its own can not be created. |
| `SyncSeal.Producer.SealClaim` | crates/prikk-store/src/seal_from_accepted.rs:145-395 | One claim: the checks in order, then a publication that may be stopped anywhere, its read-back included. |
| `SyncSeal.Producer.SealClaims` | crates/prikk-cli/src/sync.rs:523-554 | The claim loop equals the batch function: its count, its failure, its cells; the worktree, the record and the marker stay as they are. |
| `SyncSeal.Producer.ApplyPlan` | crates/prikk-store/src/worktree_materialize.rs:279-304 | Stopped anywhere, only worktree files have changed, and only towards the tip. |
| `SyncSeal.Producer.RecordAndUnmark` | crates/prikk-store/src/worktree_materialize.rs:515-522 | The record emptied, then written, then the marker cleared; a failure keeps the marker. |
| `SyncSeal.Producer.MaterializeTip` | crates/prikk-store/src/worktree_materialize.rs:495-529 | Files, then the record, then the marker; it fails without an I/O error exactly when something is in the way or the tip can not be written, and then keeps the marker. |
| `SyncSeal.Producer.Admit` | crates/prikk-cli/src/sync.rs:482-519 | Goes through exactly when the worktree is verified, no pointer entry is torn, every file has its bytes, no rename is declared, and nothing is in the way of the expected tip. |
| `SyncSeal.Producer.Conclude` | crates/prikk-cli/src/sync.rs:555-613 | Nothing counted clears the marker and no more; anything counted is materialized, even after a failed claim; a failure of either keeps the marker. |
| `SyncSeal.Producer.SealOntoCurrent` | crates/prikk-cli/src/sync.rs:463-613 | Every durable state is a batch state; refused exactly when not admitted, and then nothing changes; a return with the marker newly set is a failed abandon or materialize, the latter without an I/O error only over a tip that is obstructed. |
| `SyncSeal.Producer.AdmitCreate` | crates/prikk-cli/src/branch.rs:237-330 | Goes through exactly for an unborn branch that owns no queue, over a clean worktree with nothing in the way. |
| `SyncSeal.Producer.CreateOntoCurrent` | crates/prikk-cli/src/branch.rs:209-391 | Every durable state is a create state; refused exactly when not admitted; the marker stays set when the publication fails, which it does only if cut short or refused. |
| `FileSystem.LossViews` | crates/prikk-cli/src/durable_output.rs:15-40 | What a name may read as after a power loss is exactly what some loss state shows. |
| `FileTree.FirmSurvives` | crates/prikk-cli/src/extract.rs:700-724 | Whatever a power loss leaves, everything below a synced directory whose descendants were synced before it reads as it did. |
| `DurableOutput.OldOrComplete` | crates/prikk-cli/src/durable_output.rs:121-217 | After a power loss at any step the destination reads as it could before or as the complete new bytes, and every other name as before. |
| `DurableOutput.PendingUntouched` | crates/prikk-cli/src/durable_output.rs:121-152 | An error before the rename leaves the destination as it was, now and after any power loss. |
| `DurableOutput.FillTemporary` | crates/prikk-cli/src/durable_output.rs:160-217 | Fills and syncs a new temporary file, or fails, with every old name and file untouched throughout; if nothing fails, exactly when the name was free. |
| `DurableOutput.StoreDurably` | crates/prikk-cli/src/durable_output.rs:121-257 | Success means content and entry both survive any power loss; every state on the way is old or complete; if nothing fails it is stored, exactly unless the temporary name was taken; one fault leaves no temporary file. |
| `KeyMaterial.KeyIdPathDiffers` | crates/prikk-cli/src/key_material.rs:255-268 | A seed is never its own key-id file. |
| `KeyMaterial.KeyIdPathsCollide` | crates/prikk-cli/src/key_material.rs:255-268 | Two seeds share a key-id file exactly when one is a role's own seed and the other is named like the role. |
| `KeyMaterial.DecodeSeed` | crates/prikk-cli/src/main.rs:1817-1848 | Returns a seed exactly when the trimmed text is its hex form in either case. |
| `KeyMaterial.WriteNewFile` | crates/prikk-cli/src/key.rs:344-371 | Creates a file that was not there; at every step it holds a prefix of its text and nothing else changed. |
| `KeyMaterial.WriteNewKey` | crates/prikk-cli/src/key_material.rs:321-392 | At every step nothing existing is changed, and a seed file exists only beside its whole key-id file; an existing path is refused, and if nothing fails, nothing else is. |
| `KeyMaterial.RunAttempts` | crates/prikk-cli/src/key_material.rs:321-392 | Over any run of creations, errors and deaths on any disk, every seed made has its own id beside it and every other new file is too short to be a seed; an undisturbed attempt made its key or found a name taken. |
| `KeyMaterial.PrefixDecodes` | crates/prikk-cli/src/main.rs:1817-1848 | Part of a seed file reads as a seed exactly once all its digits are there, and then as the right one. |
| `KeyMaterial.EverySeedNamesItself` | crates/prikk-cli/src/key_material.rs:274-318 | After any run, a new file that reads as a seed is usable, without mismatch, under the id derived from it and never under the legacy id. |
| `KeyMaterial.MadeReads` | crates/prikk-cli/src/key_material.rs:400-528 | `status` and `signing_key` give back the seed and the derived id that were written. |
| `KeyMaterial.SignsExactly` | crates/prikk-cli/src/key_material.rs:274-318 | Which seed signs under which id, on any disk: the variable's, else the key-id file's if it is the one derived from the seed, else the role word. |
| `KeyMaterial.DerivedIdText` | crates/prikk-cli/src/key_material.rs:244-252 | The derived id, character by character. |
| `KeyMaterial.CutSeedIsUnusable` | crates/prikk-cli/src/key_material.rs:434-452 | A made seed signs exactly when all its digits are on disk. |
| `KeyMaterial.PowerLossExactly` | crates/prikk-cli/src/key_material.rs:338-392 | No power loss parts a whole seed from its id exactly when the key-id file was made durable by other means. |
| `KeyMaterial.LegacyIdAfterPowerLoss` | crates/prikk-cli/src/key_material.rs:274-318 | A key created after the last directory sync can, after a power loss, sign under the shared legacy id. |
| `Extract.CollectDirectories` | crates/prikk-cli/src/extract.rs:704-716 | The stack walk ends, with every directory of the tree found exactly once. |
| `Extract.SortDeepestFirst` | crates/prikk-cli/src/extract.rs:717-720 | A permutation of distinct paths by falling depth. |
| `Extract.SyncOrder` | crates/prikk-cli/src/extract.rs:704-724 | Each directory exactly once, and only after all of its descendants. |
| `Extract.PlanSummary` | crates/prikk-cli/src/extract.rs:681-698 | Count, 64-bit total and largest length, exactly when every blob can be read. |
| `Extract.BuiltUnique` | crates/prikk-cli/src/extract.rs:812-880 | A plan determines its tree: any two trees built from it agree everywhere. |
| `Extract.BelowIsSynced` | crates/prikk-cli/src/extract.rs:717-724 | The order serves its purpose: the directory synced next has nothing unsynced below it. |
| `Extract.SyncKeepsFirm` | crates/prikk-cli/src/extract.rs:700-724 | So no directory is ever synced over something that a power loss could still take. |
| `Extract.LandSafe` | crates/prikk-cli/src/extract.rs:599-640 | The rename gives the target name to the whole, already durable tree and changes nothing else. |
| `Extract.NoPartAtTarget` | crates/prikk-cli/src/extract.rs:599-640 | After a power loss in any state, the target is as it could have been at the start or is the whole plan; every other name and node is as it could have been at the start. |
| `Extract.LastsExactly` | crates/prikk-cli/src/extract.rs:636-652 | The plan is at the target after every power loss exactly when no version of the parent without it can come back. |
| `Extract.Extractor.MakeDirs` | crates/prikk-cli/src/extract.rs:843-857 | Adds only directories on the way to its path. |
| `Extract.Extractor.WriteFile` | crates/prikk-cli/src/extract.rs:890-913 | On success the new file has its bytes and mode, both durable, and nothing else of the tree changed; if nothing fails, exactly when the name was free. |
| `Extract.Extractor.WritePlan` | crates/prikk-cli/src/extract.rs:812-880 | On success exactly the plan's tree stands at the temporary sibling, every file synced, with the summary's total and largest length; if nothing fails, whenever every blob can be read and no file is in the way of another. |
| `Extract.Extractor.SyncTree` | crates/prikk-cli/src/extract.rs:704-724 | Every directory after its descendants, each state firm; on success the temporary directory itself is synced and the tree is as it was. |
| `Extract.Extractor.Land` | crates/prikk-cli/src/extract.rs:619-640 | The rename, when it succeeds: the target's entry leads to the whole durable plan, and every state so far is safe. |
| `Extract.Extractor.SyncParent` | crates/prikk-cli/src/extract.rs:636-652 | On success the plan is at the target after every power loss. |
| `Extract.Extractor.WithinLimits` | crates/prikk-cli/src/extract.rs:498-556 | Goes on exactly when the plan can be summed up, where that is asked for, and count and 64-bit total are within the limits. |
| `Extract.Extractor.Run` | crates/prikk-cli/src/extract.rs:392-673 | After a power loss at any step the target is as it could have been at the start or exactly the plan, and after success exactly the plan; running on, it is as at the start or the plan; refused exactly when the plan is outside its limits or a name is taken; every error but an unconfirmed last sync leaves the target absent. If nothing fails it is done, exactly unless refused, only planned, or a blob is missing or two files clash; nothing is then left beside the target. |
| `BoundedRead.Source.ReadToEnd` | crates/prikk-cli/src/bounded_read.rs:175-178 | However the source is cut, the first bytes up to the limit are read, and no more. |
| `BoundedRead.ReadBounded` | crates/prikk-cli/src/bounded_read.rs:159-184 | The whole stream exactly when declared and real lengths fit; nothing read when the declared length is over; at most one byte past the bound; the largest bound never refuses. |
| `Doctor.AbsorbAllTallies` | crates/prikk-cli/src/arg_scan.rs:19-42 | Marking groups one by one succeeds exactly when no group repeats, and then means the tally of their multiset. |
| `Doctor.MeaningIgnoresOrder` | crates/prikk-cli/src/args.rs:480-707 | Argument lists with the same groups in any order are accepted alike and mean the same. |
| `Doctor.Scan` | crates/prikk-cli/src/args.rs:480-552 | The token loop yields exactly the tally of the groups, and refuses what has none. |
| `Doctor.ParseDoctorArgs` | crates/prikk-cli/src/args.rs:480-707 | Parsing yields the meaning of the argument list, and accepts exactly what can be read, repeats nothing and goes together. |
| `Doctor.AcceptedExactly` | crates/prikk-cli/src/args.rs:480-682 | Over the tokens: accepted exactly when every group is a known flag, a flag with its value or a path, none repeats, at most one command that is run alone and none beside a plain repair, and the flags that belong to a command come with it. |
| `Doctor.MeansExactly` | crates/prikk-cli/src/args.rs:498-705 | Every field of an accepted list is true, or has its value, exactly when its own flag is there outside value positions, or is followed by it. |
| `Doctor.AcceptedIsCoherent` | crates/prikk-cli/src/args.rs:553-682 | An accepted list has at most one exclusive command, none beside a plain repair, and plans only what can be planned. |
| `Doctor.StepsAreRequested` | crates/prikk-cli/src/main.rs:1415-1785 | For an accepted list, the writing calls are exactly the repairs asked for, each once, and none when only planning. |
| `Doctor.Dispatcher.Run` | crates/prikk-cli/src/main.rs:1415-1785 | Makes its steps in order and all of them unless one errors; succeeds exactly when none did, no index id was lost, no session was skipped, and the repository is healthy wherever that is looked at. |
| `Config.ReadLines` | crates/prikk-cli/src/config.rs:69-97 | Accepts exactly files of blank lines, comments and at most one setting of the known key. |
| `Config.LineExactly` | crates/prikk-cli/src/config.rs:69-97 | What each kind of line looks like, in its own characters; no line has two shapes. |
| `Text.LinesExactly` | crates/prikk-cli/src/config.rs:71 | The lines, put together again, are the text, and no line holds a line break. |
| `Text.TrimExactly` | crates/prikk-cli/src/config.rs:73 | Trimming removes blanks at both ends, all of them, and nothing else. |
| `Config.Repository.RunSet` | crates/prikk-cli/src/config.rs:221-242 | Writes the whole file exactly when key and value are good, else nothing. |
| `Config.Repository.RunUnset` | crates/prikk-cli/src/config.rs:244-254 | Removes the file, after which the setting reads as absent. |
| `Config.Repository.ReadIncoming` | crates/prikk-cli/src/config.rs:114-126 | Absent, a positive 64-bit number, or a refusal, as the strict grammar says. |
| `Config.SetThenRead` | crates/prikk-cli/src/config.rs:57-126 | After an accepted set, a read returns the same number exactly when the file fits the reader's bound. |
| `Text.ParseExactly` | crates/prikk-cli/src/config.rs:99-111 | A number is read exactly from its digits, with or without a plus sign, if it fits 64 bits. |
| `Text.DecimalSplit` | crates/prikk-cli/src/config.rs:99-111 | Each digit counts ten times as much as the one after it. |
| `Config.OverlongSetting` | crates/prikk-cli/src/config.rs:221-242 | An accepted value whose file can not be read back. |
| `Config.Resolve` | crates/prikk-cli/src/config.rs:132-146 | The flag, else the file when a repository is open, else the default; a bad file matters only when it is consulted. |

## Left out

- SHA-256 and Ed25519 are parameters; block and ref-state ids in `Publication`, `Seal` and `SyncSeal` stand for their contents, so a hash collision there is not modelled.
- Replay of patches into files is a parameter of `SyncSeal`; merging, patch application and block sealing are not modelled.
- The write-ahead log, the object containers and the locks appear only through the state they protect; each command is modelled as running alone.
- Publication.PublishKeepsInv: one ref at a time; the check that a new name collides with no other ref and the refusals over other refs' unfinished publications are not modelled.
- A record that names a block the repository does not hold reads as no record in the code; in the model every recorded block is held.
- Queue records are taken to be numbered from 1 without gaps, so that a record's number of queued patches is the number up to which the queue is read. The provisional-worktree gate is modelled for `sync seal`, `branch create` and the switch, not for `seal`.
- SyncSeal.Producer.SealOntoCurrent: the marker write either lands or does not; an error reported after it landed is not a separate case.
- `sync seal` onto a branch that is not current publishes through the same loop (`SyncSeal.Producer.SealClaims`) and touches no marker, record or worktree; it has no command of its own here.
- Materialize.PlanMaterialization: symbolic links and other special files are one kind of entry, which is in the way of everything; the check of a resumed switch reads through a link, but its planner then refuses it.
- Materialize.Apply: files are written in some order, not in the manifest's; the contract holds for each. A single write replaces its file in one step.
- `merge`, `archive import` and `checkout`, which share the materialization steps.
- KeyMaterial.MadeReads: the check that a seed file is not readable by others, and trimming of white space outside ASCII, are not modelled.
- KeyMaterial.KeyIdPathsCollide: paths are plain strings; two spellings of one path are different here.
- Extract.Extractor.Run: the refusal of targets inside the repository, and another process acting on the same paths, are not modelled; removing the temporary tree drops its name at once; the directories above the target's parent are neither written nor synced and do not appear.
- BoundedRead.ReadBounded: the buffered and seekable forms of a bundle source only choose whether it is called.
- Config.ReadLines: a file that is not UTF-8 is refused before any line is read; files here are texts.
- Doctor.Dispatcher.Run: what each repair does inside the store is not modelled, only which are called.
- `is_contiguous_op_seq`, the other argument parsers, reports, JSON and help texts would add only easy members.
- Windows branches and the foreign calls behind them.
