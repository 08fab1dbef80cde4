# Durable commit protocols of the job controller

A logical run of a cooperative job outlives the physical attempts that carry it out. It survives through a
few protocols that must hold together under crashes, retries and competing workers: progress snapshots
published to a bucket without compare-and-swap, a chain of checkpoint claims, a bundle format written in two
languages, control documents in a repository with compare-and-swap commits, and the controller that ties
them together at safe boundaries. This project models those protocols and proves what they promise over
every input, every interleaving and every history.

`dafny verify dfyconfig.toml` checks everything.

## Parts

- `ClaimKeys` proves the string keys faithful, so that the other modules may speak of run, sequence and
  attempt instead of paths.
- `ProgressModel`, `ProgressProtocol`, `ProgressAgreement`, `ProgressReconcile`: any number of publishers and
  readers as a machine whose steps are single reads, writes and listings. Main results: agreement on every
  sequence, forks that never grow, and a reconciliation that does not depend on the pointer.
- `ProgressRetries`, `ProgressRuns`: what one process that retries a snapshot adds among competitors, and what
  it achieves as soon as it is left to itself.
- `ProgressStores`, `TrackRules`, `PyReporter`, `TsReporter`, `TrackHistory`: the loops and fields of one
  store and of both reporters as classes, under arbitrary failures and, for TypeScript, arbitrary
  interleaving with an awaited flush; and what readers of the history may rely on.
- `Bundle`, `BundleStream`: the bundle format, the slicing verifier of TypeScript and the chunked reader and
  writer of Python, all against one declarative layout.
- `CheckpointChain`, `CheckpointProtocol`, `CheckpointAgreement`, `CheckpointRuns`: the chain loader against a
  declarative chain, then any number of coordinators over one store, and exactly when one that is left to
  itself commits and restores.
- `CheckpointFiles`, `Coordinator`, `CheckpointLives`: the coordinator as a class over the files of a
  bucket, crash atomicity of its commits, and what coordinators that live one after the other restore.
- `ControlModel`, `ControlRepo`, `ControlRuns`, `Launcher`: compare-and-swap commits whose outcome may be
  lost, what a client left to itself achieves, and the store and launcher methods on top.
- `ControllerModel`, `Controller`: what one attempt decides and writes, and the class that does it, with
  every request journalled so that the order of writes is part of the contract.
- `RunSystem`, `RunSafety`, `RunTheorems`, `RunRefinement`, `RunAnswers`: operators, outages, deaths and
  attempts one after another, with the application's state, the refinement that ties the machine's worker to
  the controller class, and what each command does to a run.

## Assumptions

- Reading, writing and listing single objects is atomic and linearizable, and nothing is deleted.
- Attempt ids are distinct: a progress publisher writes only under its own, and a controlled run never
  reuses one. The checkpoint coordinators need no such assumption.
- Agreement between checkpoint coordinators holds for any of them. That commits are crash-atomic is stated
  for coordinators that live one after the other and, except for the first of a run, restore before they
  commit.
- SHA-256 and the JSON codec are opaque functions with parse(print(m)) == m. That different contents have
  different digests is assumed only where a check and the write it guards are two operations (progress
  snapshots, and the bucket of a controlled run).
- Controlled runs have one live attempt at a time.
- An application's save and restore undo each other, and the files it saves lie in a real directory, so none
  of them is below another.

## What the proofs found

- A controller inherits the progress of the last status (src/hf_job_control/controller.py:103), and a status
  may not carry the progress of another attempt (src/hf_job_control/models.py:903). So once a boundary has
  reported progress, the next attempt restores its checkpoint, stores its receipt, and then fails at its
  first status; every later attempt fails the same way. The promise that a resumed run can be started holds
  exactly when the paused status carries no progress (`ResumedRunStartsIff`, `ProgressBlocksForEver`); a
  history in which it fails is `InheritedProgressFails`.
- Retrying a publication whose claim was written is rejected, because reconciliation already returns it
  (`PublicationEffect`, and among competitors `RetryIsRejected`).
- A track that leaves a plan and returns may show a lower count; otherwise history is monotone, and on plan
  ids that is the weakest condition (`MonotoneHistory`, `ReturningLosesCounts`).
- Python refuses to bundle the files a/b and a.txt, since it sorts paths by component and then insists on
  string order (`PythonCannotBundle`). It bundles a directory exactly when no two names differ first in a
  separator against a character below it (`PythonCreationExact`).
- Python's restore also fails on a manifest that lists one path below another, which TypeScript accepts
  (`RestoreBundle`, with `NestedBundleDecodes` for a and a/b).
- A manifest above 16 MiB can be written but never read back; the saved bundle then exists and cannot be
  restored (`CreatedDecodesOnlyIf`).
- A coordinator that has not restored claims sequence 1 and thereby makes a run with a chain unloadable for
  everyone (`UnrestoredForks`, `ClaimWriteKeepsChainIff`, `ConflictIsFinal`).

## Model

| member | source | states |
|---|---|---|
| `ClaimKeys.PaddedOrderIsNumeric` | src/hf_job_control/progress.py:419-423 | the sixteen-digit padding of a sequence is injective and its text order is the numeric order, for every sequence up to 2^53-1 |
| `ClaimKeys.ProgressClaimKeyInjective` | src/hf_job_control/progress.py:426-432 | a progress claim key determines run, sequence and attempt, for all safe ids and safe sequences |
| `ClaimKeys.ProgressListingSelects` | typescript/src/index.ts:138-160 | the listing prefix of a run and sequence is a prefix of a claim key exactly when run and sequence agree |
| `ClaimKeys.ProgressListingSkipsOthers` | src/hf_job_control/progress.py:384-407 | pointers and snapshots are never listed as claims |
| `ClaimKeys.CheckpointClaimKeyInjective` | typescript/src/checkpoint.ts:141-157 | a checkpoint claim key determines run, sequence and attempt, and the run's listing prefix selects exactly the run's claims |
| `ClaimKeys.CheckpointListingSkipsOthers` | typescript/src/checkpoint.ts:128-162 | bundles and the pointer are never listed as claims, and no bundle key is the pointer key |
| `ClaimKeys.KeysLieUnderThePrefix` | typescript/src/checkpoint.ts:1055-1057 | under a prefix every key is the prefix, a separator and the key without a prefix |
| `ClaimKeys.ProgressKeysSpelledOut` | src/hf_job_control/progress.py:384-432 | the progress keys of a run without a prefix, segment by segment |
| `ClaimKeys.CheckpointKeysSpelledOut` | typescript/src/checkpoint.ts:128-162 | the checkpoint keys of a run without a prefix, segment by segment |
| `ProgressModel.SingleClaimIff` | src/hf_job_control/progress.py:901-912 | the single-claim check passes exactly when one key stands alone at the sequence, and then yields that claim |
| `ProgressProtocol.StepKeepsInv` | src/hf_job_control/progress.py:633-663 | every step of every process (read, write, listing, crash) keeps the store invariant, never deletes or rewrites an object or claim, and adds claims only under its own attempt |
| `ProgressProtocol.InvAfter` | src/hf_job_control/progress.py:915-946 | the invariant holds after every interleaving of any number of publishers and readers |
| `ProgressProtocol.RecountSound` | src/hf_job_control/progress.py:661-662 | a publisher that lists its own claim alone has observed the one snapshot of that sequence |
| `ProgressProtocol.LoadChildSound` | src/hf_job_control/progress.py:930-938 | a child accepted by a reconciliation was listed alone and is the snapshot its claim names |
| `ProgressProtocol.WriteObjectSound` | src/hf_job_control/progress.py:641-649 | the check-then-write of a snapshot object cannot replace a different snapshot |
| `ProgressAgreement.HistoryGrows` | src/hf_job_control/progress.py:633-663 | observations, returned publications, claims and objects of a history are kept by every longer history |
| `ProgressAgreement.Agreement` | src/hf_job_control/progress.py:901-946 | any two successful observations of one sequence of a run, at any two times, name the same snapshot |
| `ProgressAgreement.OnePublisherPerSequence` | typescript/src/index.ts:201-252 | at most one attempt's publication at a sequence returns; every observer of the sequence sees it, and its object stays readable |
| `ProgressAgreement.ClaimsAreLinear` | src/hf_job_control/progress.py:1026-1036 | in every reachable store each claim names its own snapshot, claims after the first link to a claimed predecessor, competing claims share that link, and pointers name committed snapshots |
| `ProgressAgreement.ForkNeverGrows` | src/hf_job_control/progress.py:915-946 | claims at n+1, losing ones included, all link to one and the same reference claimed at n |
| `ProgressAgreement.Lineage` | src/hf_job_control/progress.py:1026-1036 | following previous from any claimed snapshot visits exactly n, n-1, ..., 1 and ends at none |
| `ProgressReconcile.NoGaps` | src/hf_job_control/progress.py:926-930 | every sequence up to the highest claimed one has a claim |
| `ProgressReconcile.NextChildMeans` | src/hf_job_control/progress.py:926-938 | in any store, also a damaged one, a child is accepted exactly when a single claim stands at the next sequence, carries the child's run, attempt, sequence, time and reference, the reference names the stored object with its length and digest, and the child links to what was reached before |
| `ProgressReconcile.NextChildFails` | src/hf_job_control/progress.py:901-938 | in any store the walk ends exactly where no claim stands, fails for good exactly on competing claims, and fails transiently exactly on a missing object |
| `ProgressReconcile.PointedHeadMeans` | src/hf_job_control/progress.py:860-874 | in any store a pointer yields a head exactly when it carries the head's run, sequence, time and reference, the reference names the stored object, and a single claim of that sequence agrees |
| `ProgressReconcile.NextChildExact` | src/hf_job_control/progress.py:926-938 | one turn of the walk finds nothing exactly past the highest claim and fails exactly on a contested or unlistable sequence |
| `ProgressReconcile.WalkExact` | src/hf_job_control/progress.py:926-946 | the walk ends (measure: highest claimed sequence minus current) and succeeds exactly when no later sequence is contested |
| `ProgressReconcile.ReconcileExact` | src/hf_job_control/progress.py:915-946 | a load succeeds exactly when no sequence from the pointer to the highest claim is contested and the next one can be listed; it returns the highest claim and leaves the pointer there |
| `ProgressReconcile.PointerIndependence` | typescript/src/index.ts:254-296 | in every reachable store, loads from no pointer or any committed pointer return the same head and leave the same pointer whenever both succeed, and always succeed while nothing is contested |
| `ProgressStores.BucketProgressStore.LoadPointed` | src/hf_job_control/progress.py:860-874 | the pointed snapshot, checked against pointer and claim, is what the specification of the first half of reconciliation says |
| `ProgressStores.BucketProgressStore.LoadNext` | src/hf_job_control/progress.py:926-938 | the next child as read by the loop is the child of the specification |
| `ProgressStores.BucketProgressStore.LoadLatest` | src/hf_job_control/progress.py:611-623 | the loop computes reconciliation exactly when no operation fails; under any failures only the pointer moves, along committed snapshots |
| `ProgressStores.BucketProgressStore.WritePointer` | src/hf_job_control/progress.py:675-682 | the pointer becomes the given one, or stays when the write raised before taking effect |
| `ProgressStores.BucketProgressStore.PutObject` | src/hf_job_control/progress.py:641-649 | the snapshot object is added if absent, never replaced; success means the stored object is the snapshot |
| `ProgressStores.BucketProgressStore.PutClaim` | src/hf_job_control/progress.py:650-660 | the claim is added if absent, never replaced; a refusal means another document stands there and nothing changed |
| `ProgressStores.BucketProgressStore.Recount` | src/hf_job_control/progress.py:661 | the recount passes exactly when the own claim is the only one listed |
| `ProgressStores.BucketProgressStore.Commit` | src/hf_job_control/progress.py:633-663 | whatever fails, the writes of a publication are object, then claim, then pointer, a later one only after the earlier ones |
| `ProgressStores.BucketProgressStore.Publish` | src/hf_job_control/progress.py:633-663 | a publication returns only when the head accepts it, with its claim and pointer stored, and then always if nothing fails; a failure of its first read leaves everything as it was |
| `ProgressStores.PublicationEffect` | src/hf_job_control/progress.py:1033-1036 | on every store that competitors may have left, a publication changes the claims exactly by becoming the new head, only with the sequence after the highest claim; so retrying a publication whose claim was written is rejected |
| `ProgressRetries.ReachableIsCoherent` | src/hf_job_control/progress.py:633-663 | every store that any history of publishers reaches satisfies what the methods of the store and the reporter rely on |
| `ProgressRetries.RetriesAddOneClaim` | src/hf_job_control/progress.py:836-847 | however often a process retries one snapshot, under every interleaving with competitors, failures and crashes, its claims grow by at most the claim of that snapshot |
| `ProgressRetries.ReturnedIsClaimed` | src/hf_job_control/progress.py:650-663 | a try that returned has its own claim in the store, in every history |
| `ProgressRetries.RetryIsRejected` | src/hf_job_control/progress.py:1026-1036 | once the claim is stored and the publication that stored it is abandoned, no later try of the snapshot gets as far as its first write, in any continuation |
| `ProgressRuns.AcceptsExact` | src/hf_job_control/progress.py:1026-1036 | a publication is accepted exactly when no sequence from the pointer on is contested and the snapshot is numbered right after the highest claim and names the one claim there, or none at the beginning |
| `ProgressRuns.PublishAlone` | src/hf_job_control/progress.py:633-663 | after any history of competitors a process left to itself publishes such a snapshot: object, claim and pointer are stored and it returns; any other snapshot leaves objects and claims alone |
| `ProgressRuns.LoadAlone` | src/hf_job_control/progress.py:611-623 | after any history a load left to itself ends with the pointer and the head that reconciliation prescribes, and has observed that head |
| `ProgressRuns.OvertakenGivesUp` | src/hf_job_control/progress.py:675-682 | a load goes on and a publication returns exactly while the pointer still names what it wrote |
| `TrackRules.KeysAreUnique` | src/hf_job_control/progress.py:758-760 | the duplicate check accepts exactly the lists with pairwise different keys |
| `TrackRules.TransitionExact` | src/hf_job_control/progress.py:1005-1023 | the transition check passes exactly a new plan, or the same unit and total with a count that stays and does not fall, and no change at all of a completed, failed or cancelled track |
| `PyReporter.Merge` | src/hf_job_control/progress.py:761-766 | the loop accepts a plan exactly when each planned track continues the track it replaces, and yields the merged tracks |
| `PyReporter.ProgressReporter.constructor` | src/hf_job_control/progress.py:729-743 | a reporter continues the tracks and state of the latest snapshot of the same input and starts over otherwise |
| `PyReporter.ProgressReporter.Plan` | src/hf_job_control/progress.py:752-770 | a plan of different keys whose tracks continue those they replace is merged as a whole; any other changes nothing |
| `PyReporter.ProgressReporter.Update` | src/hf_job_control/progress.py:772-782 | a known track is replaced exactly by a track of another plan, or of the same plan, unit and total whose count does not fall, and a finished one by none but itself |
| `PyReporter.ProgressReporter.SetState` | src/hf_job_control/progress.py:784-792 | a completed, failed or cancelled state refuses every other state, and nothing else is refused |
| `PyReporter.ProgressReporter.Flush` | src/hf_job_control/progress.py:801-834 | one flush adds at most the snapshot composed of the reporter's fields: exactly it when it returns a value, nothing when it returns none, which it does exactly when clean or not due; it succeeds when the head accepts the snapshot and transient failures leave it one try |
| `PyReporter.ProgressReporter.PublishWithRetry` | src/hf_job_control/progress.py:836-847 | the retry loop adds the snapshot at most once, and has added it when it returns; it gets through any number of transient failures below the number of tries, and gives up after that number of tries |
| `PyReporter.ProgressReporter.Heartbeat` | src/hf_job_control/progress.py:794-799 | a heartbeat publishes the current tracks although nothing changed, when it is due and under the same conditions as a flush |
| `TsReporter.ProgressReporter.Plan` | typescript/src/index.ts:425-444 | a plan of different keys whose tracks continue those they replace is merged as a whole and marks the reporter dirty; any other changes nothing |
| `TsReporter.ProgressReporter.Update` | typescript/src/index.ts:446-456 | a known track is replaced exactly by one that continues it, field by field |
| `TsReporter.ProgressReporter.SetState` | typescript/src/index.ts:458-467 | a finished state refuses every other state, and nothing else is refused |
| `TsReporter.ProgressReporter.Apply` | typescript/src/index.ts:425-472 | every change of content, every accepted plan and every heartbeat moves the change counter and sets dirty; nothing else does; a rejected change alters nothing |
| `TsReporter.ProgressReporter.BeginFlush` | typescript/src/index.ts:483-510 | a flush captures the current tracks and state with the counter, exactly when dirty, numberable, and forced, first or past the interval |
| `TsReporter.ProgressReporter.Settle` | typescript/src/index.ts:511-517 | after the awaited publication the reporter is clean exactly when nothing changed meanwhile |
| `TsReporter.Interleave` | typescript/src/index.ts:391-540 | no lost update: under every interleaving of changes with starting and settling flushes, a reporter that is not dirty has stored exactly its current tracks and state; stored snapshots are numbered consecutively and linked |
| `TrackHistory.PathGoesForward` | src/hf_job_control/progress.py:1005-1023 | along any path of accepted changes on which no track returns to a plan it left, keys only grow, and under one plan unit and total stay, counts never fall or vanish and finished tracks and states are frozen |
| `TrackHistory.ReturningLosesCounts` | src/hf_job_control/progress.py:1008-1009 | no weaker condition on plan ids will do: for every sequence of plans that leaves a plan and comes back there is a list of events that publishes a track under just these plans and loses the count between the two snapshots of the plan |
| `TrackHistory.StretchIsPath` | src/hf_job_control/progress.py:729-743 | between two chain snapshots joined by equal input, whichever reporters wrote them, lies one path of accepted changes |
| `TrackHistory.MonotoneHistory` | src/hf_job_control/progress.py:728-834 | between any two published snapshots of such a stretch, everything a reader sees only moves forward |
| `Bundle.ValueOfBigEndian` | typescript/src/checkpoint.ts:191-196 | reading back the eight-byte length gives the length |
| `Bundle.SafePathMeans` | typescript/src/checkpoint.ts:822-834 | a payload path is safe exactly when it has no backslash and between its separators and ends no empty, dot or dot-dot component |
| `Bundle.BigEndianOfValue` | typescript/src/checkpoint.ts:215 | the length bytes are determined by the length they denote |
| `Bundle.LayoutUnique` | typescript/src/checkpoint.ts:205-251 | a byte string is magic, length, manifest and payloads in manifest order in at most one way |
| `Bundle.CreatedDecodes` | typescript/src/checkpoint.ts:164-203 | a created bundle decodes to its own manifest and path-to-bytes map, for manifests of 2 bytes to 16 MiB |
| `Bundle.CreatedDecodesOnlyIf` | src/hf_job_control/checkpoint.py:129-131 | a created bundle decodes at all only when its manifest has such a length |
| `Bundle.DecodedIsSafe` | typescript/src/checkpoint.ts:205-251 | whatever bytes decode, only different safe paths within the length limit are written, each with content of the listed length and digest, and nothing else |
| `Bundle.CreatedIsSafe` | typescript/src/checkpoint.ts:164-203 | a bundle is only ever made of different safe paths within the limit |
| `Bundle.CreationExact` | typescript/src/checkpoint.ts:750-763 | sorting in an order of one's own, here TypeScript's locale order as a parameter, and insisting on code-unit order succeeds, on safe distinct paths, exactly when the two orders agree on them |
| `Bundle.PathOrderExact` | src/hf_job_control/checkpoint.py:116-120 | component order and text order agree on a pair of names exactly unless, where the names first differ, one has a separator and the other a character below it |
| `Bundle.PythonCreationExact` | src/hf_job_control/checkpoint.py:42-79 | Python bundles the safe files of a directory exactly when no two of their names clash in this way |
| `Bundle.PythonCannotBundle` | src/hf_job_control/checkpoint.py:116-120 | of the two ordinary files a/b and a.txt, in the order of the walk, no bundle is made, whatever they contain |
| `Bundle.VerifyBundle` | typescript/src/checkpoint.ts:205-251 | the whole-buffer verifier returns exactly what the byte string means, and nothing when it is not a bundle |
| `Bundle.VerifyPayloads` | typescript/src/checkpoint.ts:231-249 | the payload loop accepts exactly when lengths and digests match and nothing is left over |
| `BundleStream.CopyAndHashExact` | src/hf_job_control/checkpoint.py:199-214 | for every positive chunk size the loop copies up to the expected bytes, and the digest covers exactly what was copied |
| `BundleStream.ReadManifest` | src/hf_job_control/checkpoint.py:123-135 | a manifest is read exactly from the header the layout prescribes; otherwise the bytes are no bundle |
| `BundleStream.StreamPayload` | src/hf_job_control/checkpoint.py:141-155 | one turn of the payload loop: the next file holds the next payload, or the bytes are no bundle or paths are nested |
| `BundleStream.VerifyPayloadStream` | src/hf_job_control/checkpoint.py:138-157 | for every byte string and chunk size the streaming verifier accepts exactly what slicing accepts and writes the same payloads; with a directory it also refuses a manifest that lists one path below another |
| `BundleStream.ReadBundle` | src/hf_job_control/checkpoint.py:82-88 | the manifest of exactly the bundles that decode |
| `BundleStream.RestoreBundle` | src/hf_job_control/checkpoint.py:91-113 | a restore succeeds exactly for a bundle of this run, plan and adapter without nested paths, and then the directory holds exactly the payloads |
| `BundleStream.NestedBundleDecodes` | src/hf_job_control/checkpoint.py:138-157 | the bundle of the files a and a/b is made and decodes, and its paths are nested, so that no directory can hold it |
| `BundleStream.HashStream` | src/hf_job_control/checkpoint.py:180-186 | the chunked digest is the digest of the whole rest of the file |
| `BundleStream.PayloadRefs` | src/hf_job_control/checkpoint.py:116-120 | the listed references carry path, length and digest of each file |
| `BundleStream.CopyExact` | src/hf_job_control/checkpoint.py:189-196 | exactly the wanted bytes are copied, and a file that shrank is reported |
| `BundleStream.CreateBundle` | src/hf_job_control/checkpoint.py:42-79 | the written file is header, manifest and the files as they were on their second reading; unchanged files give exactly the created bundle, a shrunk one none |
| `CheckpointChain.CanonicalKeysLookLikeClaims` | typescript/src/checkpoint.ts:9 | the claim pattern matches every canonical claim key, so the loader overlooks none |
| `CheckpointChain.ClaimLookMeans` | typescript/src/checkpoint.ts:9 | exactly the keys that end in the claims directory, sixteen digits and a JSON file are read as claims |
| `CheckpointChain.ChainExtends` | typescript/src/checkpoint.ts:615-661 | with more claims a chain can only grow at its end |
| `CheckpointChain.ListingOrderIrrelevant` | typescript/src/checkpoint.ts:595-614 | success and result of loading do not depend on the order of the listing |
| `CheckpointChain.Collect` | typescript/src/checkpoint.ts:598-614 | the first loop succeeds exactly when every listed claim can be read and matches run, plan and path, and collects exactly those |
| `CheckpointChain.Group` | typescript/src/checkpoint.ts:615-620 | the grouping holds every claim under its sequence and nothing else |
| `CheckpointChain.SortedNumbers` | typescript/src/checkpoint.ts:621-623 | the distinct sequence numbers in increasing order |
| `CheckpointChain.WalkSequences` | typescript/src/checkpoint.ts:628-661 | the last loop succeeds exactly when the claims form a chain; on contiguous claims its only failure is a conflict |
| `CheckpointChain.LoadChain` | typescript/src/checkpoint.ts:594-662 | the loader succeeds exactly when all listed claims match run, plan and path, their sequences are 1..n, one reference stands at each, and predecessor digests link; it returns that chain. Its error is that of the first unacceptable claim, or tells a missing first sequence, a gap and a conflict apart |
| `CheckpointProtocol.ChainIffNoConflict` | typescript/src/checkpoint.ts:642-651 | among claims that each link to some claim of the sequence before, a chain exists exactly when no two claims of a sequence differ in reference |
| `CheckpointProtocol.StepKeepsInv` | typescript/src/checkpoint.ts:514-577 | every step of every coordinator (also one that fails, before or after taking effect, or crashes) keeps the invariant and never deletes or rewrites |
| `CheckpointProtocol.InvAfter` | typescript/src/checkpoint.ts:467-577 | the invariant holds after every interleaving of any number of coordinators, also of several that share an attempt id |
| `CheckpointProtocol.WriteClaimSound` | typescript/src/checkpoint.ts:548-564 | a claim is written only behind a stored and verified bundle, linked to a claim that a load found at the head |
| `CheckpointAgreement.HistoryGrows` | typescript/src/checkpoint.ts:545-564 | bundles, claims, loads and returned commits are kept by every longer history |
| `CheckpointAgreement.LogPrefix` | typescript/src/checkpoint.ts:594-662 | of any two chains ever loaded, by anyone at any times, the earlier is a prefix of the later |
| `CheckpointAgreement.Agreement` | typescript/src/checkpoint.ts:565-576 | commits and restores of one sequence name one bundle, in whichever coordinators they happen |
| `CheckpointAgreement.CommitsAreDurable` | typescript/src/checkpoint.ts:565-577 | a commit that returned is on every chain loaded afterwards |
| `CheckpointAgreement.LoadableIffNoConflict` | typescript/src/checkpoint.ts:642-651 | in every reachable store the chain loads exactly while no two claims conflict |
| `CheckpointAgreement.ConflictIsFinal` | typescript/src/checkpoint.ts:642-651 | once two claims conflict, nothing is loaded or committed any more, by anyone, in any continuation |
| `CheckpointAgreement.RestoresAfterConflict` | typescript/src/checkpoint.ts:481-498 | a restore that still returns after a conflict had loaded its chain before it |
| `CheckpointAgreement.ClaimWriteKeepsChainIff` | typescript/src/checkpoint.ts:520-560 | writing a claim keeps the chain loadable exactly when it is the next one or repeats the reference standing there; so a coordinator that never restored spoils a run that has a chain, unless its bundle is the first one |
| `CheckpointAgreement.UnrestoredForks` | typescript/src/checkpoint.ts:514-577 | the events of two coordinators of an empty run that commit without restoring: the run loads after the first claim and never again after the second |
| `CheckpointAgreement.Lineage` | typescript/src/checkpoint.ts:683-697 | every reference of a loaded chain names, at any later time, a stored bundle of that boundary linked to the one before |
| `CheckpointAgreement.LoaderSeesTheClaims` | typescript/src/checkpoint.ts:594-614 | on a bucket that shows the claims of a reachable store, the loader reads every claim and can complain of nothing but a conflict |
| `CheckpointRuns.RestoreAlone` | typescript/src/checkpoint.ts:467-499 | after any history of coordinators one left to itself restores the head of the chain exactly when the head's bundle was written by its adapter |
| `CheckpointRuns.NoRestoreAlone` | typescript/src/checkpoint.ts:472-479 | with an adapter that can only restart, or nothing, no coordinator restores |
| `CheckpointRuns.CommitAlone` | typescript/src/checkpoint.ts:514-577 | after any history one left to itself commits exactly when the boundary is the next one, its bundle can be made, stored and read back, and the claims form a chain that ends right before it, or with the very bundle it commits again; bundle and claim are then stored |
| `CheckpointFiles.ClaimDecides` | typescript/src/checkpoint.ts:548-564 | whatever the coordinator believes its head to be, a commit stopped anywhere adds exactly its claim to the claims of the run if the claim landed, and changes nothing about claims and history otherwise |
| `CheckpointFiles.SyncedClaimExtends` | typescript/src/checkpoint.ts:520-564 | a coordinator at the head of the chain finds its claim path free, and its landed claim extends the history by its reference |
| `CheckpointFiles.CommitKeepsCanonical` | typescript/src/checkpoint.ts:541-560 | commits, wherever they stop and whatever the coordinator believes, leave every claim of the run naming a bundle at the bundle's own key |
| `CheckpointFiles.CrashAtomicity` | typescript/src/checkpoint.ts:514-577 | wherever a commit stops, also one repeated after its claim had landed, a new coordinator restores exactly what the new bundle was made from if the claim landed now, and exactly what it would have restored before otherwise; the next commit meets the same conditions |
| `CheckpointFiles.PointerIsOnlyAHint` | typescript/src/checkpoint.ts:699-717 | no pointer write changes the history or undoes a commit's writes |
| `CheckpointFiles.NextPathIsFree` | typescript/src/checkpoint.ts:146-157 | in a store with a readable chain the path of the next claim is free |
| `Coordinator.ObjectStore.WriteImmutable` | typescript/src/checkpoint.ts:116-122 | an object is added or confirmed, never replaced |
| `Coordinator.CheckpointCoordinator.LoadHistory` | typescript/src/checkpoint.ts:594-614 | listing and loading yield the history the files say, or an I/O error |
| `Coordinator.CheckpointCoordinator.FetchReference` | typescript/src/checkpoint.ts:683-697 | a reference is read exactly when bucket, presence, length and digest agree |
| `Coordinator.CheckpointCoordinator.PublishBundle` | typescript/src/checkpoint.ts:545-573 | whatever fails, the writes are bundle, then claim, the claim only behind a verified bundle; success means the claim ends the history |
| `Coordinator.CheckpointCoordinator.Commit` | typescript/src/checkpoint.ts:514-577 | however a commit ends its outcome is crash-atomic; if it returns, the coordinator stands at the new head of the chain; without failures it returns exactly when the bundle can be made, read back and stored |
| `Coordinator.CheckpointCoordinator.Finish` | typescript/src/checkpoint.ts:579-592 | a terminal receipt is published exactly after a committed last checkpoint, for that checkpoint; without failures it returns exactly when the commit would |
| `Coordinator.CheckpointCoordinator.LoadHead` | typescript/src/checkpoint.ts:481-493 | the head claim with its verified bundle is what the files make recoverable |
| `Coordinator.CheckpointCoordinator.RestoreLatest` | typescript/src/checkpoint.ts:467-512 | a restore returns exactly what the files make recoverable, writes nothing but the pointer, puts a restore receipt of the head on record exactly when it returns something, and leaves the coordinator at the head; without failures it succeeds exactly when something is recoverable and the mode allows it |
| `Coordinator.RestoredIsSynced` | typescript/src/checkpoint.ts:498-499 | a coordinator whose restore took the head stands at the head of the chain |
| `Coordinator.RestoreKeepsOrder` | typescript/src/checkpoint.ts:699-717 | a restore writes nothing that could change what is restored, whatever becomes of the pointer |
| `CheckpointLives.NextKeepsInv` | typescript/src/checkpoint.ts:467-577 | a restore, a commit stopped anywhere, and the replacement of the coordinator each keep the bucket restorable to what last landed, and a ready coordinator in step with it |
| `CheckpointLives.LivesAreAtomic` | typescript/src/checkpoint.ts:467-592 | from a bucket without claims, through any number of coordinators one after the other, each with any restores and any commits stopped anywhere, the bucket restores exactly what the last commit whose claim landed was given to save |
| `CheckpointLives.Serve` | typescript/src/checkpoint.ts:467-577 | one call on the coordinator class is one such step, and what a restore returns is what last landed |
| `CheckpointLives.Live` | typescript/src/checkpoint.ts:430-577 | the coordinator class lives such lives under any failures: each restore that returns hands out what had last landed at that moment, and so does the bucket afterwards |
| `ControlRepo.GenerationsCount` | src/hf_job_control/stores.py:132-163 | in a history of legal commits a run's generations are exactly 1..n in order |
| `ControlRepo.NeverRewritten` | src/hf_job_control/stores.py:327-351 | an immutable document, once present, is the same in every longer history |
| `ControlRepo.StepKeepsInv` | src/hf_job_control/stores.py:311-371 | every read, commit, lost or unreported reply and crash of any client keeps the history legal and only appends to it |
| `ControlRepo.InvAfter` | src/hf_job_control/stores.py:132-217 | so after every interleaving of any number of clients |
| `ControlRepo.ControlHistory` | src/hf_job_control/stores.py:132-163 | whatever interleaves or fails, a run's control generations are exactly 1..n in order |
| `ControlRepo.ImmutableDocuments` | src/hf_job_control/stores.py:311-371 | a receipt or launch specification gets at most one commit and never changes |
| `ControlRepo.ReturnedDocuments` | src/hf_job_control/stores.py:341-370 | whoever was told that an immutable document is stored finds exactly their bytes, for ever, committed once |
| `ControlRepo.OnePublicationPerGeneration` | src/hf_job_control/stores.py:132-155 | two publications of one generation never both succeed with different documents |
| `ControlRuns.StoresAlone` | src/hf_job_control/stores.py:132-162 | after any history a client left to itself stores what the store takes and is told so: the next generation of control if its only request is delivered, another document although up to two of its requests are lost |
| `ControlRuns.RefusesAlone` | src/hf_job_control/stores.py:311-351 | what the store does not take is not stored, and counts as stored exactly if it stands there already |
| `ControlRuns.StoresUnreported` | src/hf_job_control/stores.py:341-371 | when a request is applied but reported as failed, control is published without its client being told; a receipt or specification is found on the next try, a status written again, and the client is told |
| `Launcher.Repository.CreateCommit` | src/hf_job_control/stores.py:353-360 | a commit is applied only on the head it names; it may be applied and reported as failed |
| `Launcher.FetchOptional` | src/hf_job_control/stores.py:219-249 | the control document at one exact revision |
| `Launcher.PublishControl` | src/hf_job_control/stores.py:132-162 | success means the run's generations are now exactly 1..expected+1 with this document last |
| `Launcher.PutDocument` | src/hf_job_control/stores.py:311-371 | the three-try loop leaves a receipt or specification with exactly the caller's bytes and one commit when it returns, never replaces one that says something else, replaces a status, and reports a difference only when there is one |
| `Launcher.CollectSecrets` | src/hf_job_control/launch.py:53-59 | exactly the requested secrets, explicit values first; one that is nowhere is an error |
| `Launcher.HubJobLauncher.Launch` | src/hf_job_control/launch.py:37-86 | a job is submitted only while control says run, with the digest of the registered specification; undisturbed, it fails exactly for a missing or other command, a missing secret or a different registered specification, and then commits nothing |
| `Launcher.OnePlanPerRun` | src/hf_job_control/launch.py:60-66 | all attempts of a run carry one plan digest, even when different launchers started them |
| `Controller.Controller.constructor` | src/hf_job_control/controller.py:97-104 | a new controller continues from the last status, its progress included |
| `ControllerModel.GetCheckpointMeans` | src/hf_job_control/stores.py:400-411 | a checkpoint is read back exactly when bucket, presence, length and digest agree with its reference |
| `ControllerModel.RestorableMeans` | src/hf_job_control/checkpoint.py:91-113 | a checkpoint is restored exactly when it can be read back, decodes, belongs to this run and plan, was written by this adapter, and its paths are not nested |
| `Controller.FirstReplyExact` | src/hf_job_control/controller.py:266-277 | the specified reply is the first answer among the allowed attempts, and none only if none of them was answered |
| `Controller.Controller.FetchControl` | src/hf_job_control/controller.py:266-277 | the first answer among the allowed attempts |
| `Controller.Controller.Start` | src/hf_job_control/controller.py:106-159 | a start goes ahead exactly on a newer run command whose checkpoint, if it names one, can be restored by an adapter that resumes; it then leaves the receipt (started or resumed) and the running status of that boundary, in this order, and the payloads are those of the checkpoint; otherwise it says why and writes nothing |
| `Controller.Controller.UpdateProgress` | src/hf_job_control/controller.py:328-337 | only the attempt's own progress is taken over |
| `Controller.Controller.SaveCheckpoint` | src/hf_job_control/controller.py:180-184 | the checkpoint is stored before the status names it, and both before control is read |
| `Controller.Controller.ApplyReply` | src/hf_job_control/controller.py:185-241 | what the attempt decides and writes for every answer to its question, a receipt always before the status that shows it |
| `Controller.BoundaryPlanObeys` | src/hf_job_control/controller.py:185-241 | a boundary plan carried to its end stores the checkpoint and, for each newer command, leaves its receipt, status, exit decision and target as the command asks; without a trustworthy answer it pauses and leaves no receipt |
| `Controller.Controller.BoundaryReached` | src/hf_job_control/controller.py:161-241 | the stores see exactly checkpoint, status, question and the verdict's writes in this order, or a beginning of that; without failures it returns exactly when no write is refused. When it returns: run goes on; pause exits with 0 to paused, or, if unsupported, with 1 to failed and a rejecting receipt; stop exits with 0 to completed; abort with 1 to aborted; no answer, an older one or one that changed without a new generation pauses with 0 and no receipt |
| `Controller.Controller.Finish` | src/hf_job_control/controller.py:243-248 | an exit decision leaves a status in its target state with everything the controller remembers, without failures whenever the progress is its own; a continue decision is rejected |
| `RunRefinement.FetchRefines` | src/hf_job_control/controller.py:106-143 | the worker of the system model refuses a start exactly when the controller does, and otherwise prepares the same writes at the same boundary in the restored state |
| `RunRefinement.StartRefines` | src/hf_job_control/controller.py:144-152 | after every beginning of the controller's start plan the worker of the system model reaches the same stores; a refused next write takes it down with them, and at the end it works |
| `RunRefinement.UnitRefines` | src/hf_job_control/controller.py:161-184 | the worker refuses a boundary exactly when the controller does, for foreign progress or for files that cannot be bundled, and otherwise saves the same bundle |
| `RunRefinement.BoundaryRefines` | src/hf_job_control/controller.py:180-241 | after every beginning of the controller's boundary plan the worker reaches the same stores; a refused next write takes it down with them, and at the end it continues or exits as the verdict decides |
| `RunRefinement.BoundaryRunRefines` | src/hf_job_control/controller.py:161-241 | whatever a boundary of the controller class leaves in the stores, raised or not, the system model reaches |
| `RunAnswers.NothingIsRefused` | src/hf_job_control/controller.py:180-241 | after every history no write of a working attempt's next boundary is refused |
| `RunAnswers.CommandsAreObeyed` | src/hf_job_control/controller.py:161-241 | after every history a working attempt that reaches its next boundary undisturbed obeys the newest command, and goes on or exits accordingly |
| `RunAnswers.CommandsEnd` | src/hf_job_control/controller.py:243-248 | so a run ends as it was told: after run it works on, after pause its status is paused (or failed, with a rejecting receipt, if the adapter cannot), after stop completed, after abort aborted, each with the receipt of that generation at this boundary; without an answer it is paused without a receipt |
| `RunSafety.StepKeepsInv` | src/hf_job_control/controller.py:106-264 | every step of operators and workers, and a death between any two writes, keeps the invariant of the run |
| `RunSafety.InvAfter` | src/hf_job_control/controller.py:97-326 | so after every history of commands, outages, crashes and attempts |
| `RunSafety.ReceiptIsNew` | src/hf_job_control/stores.py:522-534 | a receipt about to be published never meets a stored one under its key |
| `RunSystem.BundleExtends` | src/hf_job_control/controller.py:250-264 | storing a boundary's bundle extends the linked list of the checkpoint before it |
| `RunSystem.BundleRestores` | src/hf_job_control/checkpoint.py:91-113 | if a saved bundle decodes, restoring it gives the application state it was saved from, under this run's plan and adapter |
| `RunSystem.RestoresState` | src/hf_job_control/controller.py:123-140 | a resumed start continues at the boundary of its checkpoint, in the state of an uninterrupted run |
| `RunTheorems.ReceiptsFollowControl` | src/hf_job_control/controller.py:279-308 | receipts never go back, strictly advance within an attempt, carry the action published for their generation, and exist for every generation a status shows |
| `RunTheorems.ExactResume` | src/hf_job_control/controller.py:106-248 | whatever was paused, killed and resumed, the application is in the uninterrupted run's state after the same number of units |
| `RunTheorems.StatusLineage` | src/hf_job_control/controller.py:250-264 | the checkpoint in the status ends one linked list of bundles of boundaries 1 to its own, saved from those states |
| `RunTheorems.ExitNamesCheckpoint` | src/hf_job_control/controller.py:180-248 | an attempt told to exit has shown this boundary and a checkpoint of it that is in the bucket |
| `RunTheorems.StartSucceedsIff` | src/hf_job_control/controller.py:97-152 | an undisturbed start of a new attempt succeeds exactly when control asks for a newer run, its checkpoint can be restored, and the last status carries no progress |
| `RunTheorems.ResumeSucceedsIff` | src/hf_job_control/cli.py:134-146 | after every history an operator's resume succeeds exactly when the status is paused, the adapter supports it and the last bundle decodes; it then asks for the checkpoint of the status, or for none in restart mode |
| `RunTheorems.ResumedRunStartsIff` | src/hf_job_control/cli.py:134-146 | after a paused finish and a successful resume a new attempt starts exactly when the paused status carries no progress, and then at the paused boundary (or the beginning, in restart mode) |
| `RunTheorems.InheritedProgressFails` | src/hf_job_control/models.py:897-906 | for every application whose first boundary can be saved, a list of events after which the run is paused and its resume succeeds, while the start of a second attempt fails |
| `RunTheorems.ProgressBlocksForEver` | src/hf_job_control/controller.py:103 | once an attempt is over and the status carries its progress, no attempt ever works again and the status never changes |

## Left out

- Timestamps, boundary names and metadata, metrics, progress bodies, reasons, evidence and status messages are opaque or absent: they steer no branch of these protocols.
- SHA-256, JSON text, timestamp syntax and field-by-field validators: library-backed or easy members; records are well-formed values here.
- The filesystem, Hub and fsspec calls are replaced by the stores of the model; torn writes and listings that miss completed writes are outside the protocols' assumptions.
- Tracks of a snapshot are a map by key instead of a list sorted by key; both languages keep the list sorted and unique.
- The progress protocol and the coordinators' protocol use structured keys; `ClaimKeys` and `LoaderSeesTheClaims` connect them to the strings.
- The in-process publication lock is not modelled: without it there are only more interleavings.
- The memory and local progress stores differ from the bucket store only in fewer steps; the bucket store's steps are modelled.
- Concurrent calls on one coordinator object: each coordinator runs one operation at a time.
- The locale order in which TypeScript sorts payload names is a parameter of `CreationExact`.
- Character order beyond the basic plane, where TypeScript compares code units and Python code points, is not distinguished.
- Launcher.PutDocument: stands for both `register_launch_spec` and `_commit_document`, whose loops are the same.
- Two live controllers of one run: their statuses may go back, as the source allows.
- RunTheorems.ExactResume: says nothing of application states between boundaries, nor of units of work repeated after an attempt that died.
- Exceptions are told apart as far as retries depend on it: a missing object or a store failure may be retried, anything else is raised at once; an unknown track is a `ValueError` here and a `KeyError` in Python.
- Argument parsing, printing, `watch`, skill export, the canary, metric sinks, and the environment and labels of a launch beyond the plan digest.
