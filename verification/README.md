# Verified model of the orchestrator's hard core

This project models seven parts of the repository in Dafny 4.11 and proves what
they are for. `dafny verify dfyconfig.toml` checks all of it.

* **Token reconciliation** (`TokenReconciliation.dfy`). The alignment table and
  the walk through it, proved optimal against every monotone matching.
* **WebP trimming** (`WebpTrimming.dfy`). The RIFF walk and the header rewrite,
  proved against the chunk format of section 2.3 of RFC 9649.
* **TeaCache** (`Fingerprint.dfy`, `FingerprintPayloads.dfy`, `TeaCache.dfy`,
  `TeaCacheDecisions.dfy`, `SessionRegistry.dfy`). The session as transitions
  with a log, over all operation sequences and failing forwards; when it hits;
  the fingerprint and which payloads it tells apart; the model registry.
* **Lease-fenced settlement** (`LeaseProtocol.dfy`, `DeliveryWorker.dfy`,
  `RenderWorker.dfy`). Each worker is a step machine: a step is the code between
  two awaits, and replies, clock, heartbeats and shutdown are the environment's.
* **Workflow injection** (`WorkflowGraph.dfy`). Validators and in-place mutation
  of node graphs; the mutation is a plan of edits of which the last one wins.
* **Campaign timeline** (`CampaignAnimatic.dfy`, `CampaignReadiness.dfy`). The
  compiler to segments, lookup and seeking, and the second compiler's agreement.
* **Assembly provenance** (`AudioTiming.dfy`, `AssemblyExecution.dfy`,
  `AssemblyManifest.dfy`). The refinements of executed assemblies and manifests,
  and the construction of a manifest.

`Common.dfy` and `StableSorting.dfy` hold sums, counts and stable sorting. Code
that updates state step by step is a method with loops or a class, proved
against a function of its input; the laws are lemmas about that function.

## Where the code says something else

* The alignment script's comment asks for finite, positive timestamps
  (scripts/whisperx_align.py:48). The code also accepts an infinite end and a
  start of zero (`ZeroStartAndInfiniteEndAreKept`), and nothing else beyond the
  comment (`CandidateFinitePositiveIff`).
* "Completed" of a delivery job does not mean that no fencing reply was seen: a
  heartbeat in flight when complete is applied can still be answered with
  superseded. `CompletedMayEndFenced` shows it, `CompletedIsSound` says exactly
  when.
* Nor does it mean completed by this lease: the probe accepts any completed job
  (`CompletedMayBeAnotherLease`, exactly when: `CompletedByThisLeaseIff`).
* `RenderWorker` reports "completed" also when complete was answered with
  superseded or not_found (`CompletedMayBeSuperseded`, exactly when:
  `CompletedWasAppliedIff`).
* The slot checks behind the workflow mutation can reject a graph that the
  topology check accepted: the latter ignores a third element of a link
  (`LongLinksAreRejected`, exactly when: `MutationAcceptedIff`).
* A mutation can succeed and lose an injected value on a loader it prunes,
  although all targets are distinct (`TargetOnUnusedLoaderIsLost`, exactly when:
  `InjectedValueLostIff`).
* A campaign can be ready for planning without a single approved scene
  (`ReadyWithoutApproval`, exactly when: `ReadySceneLacksApprovalIff`).
* The fingerprint does not tell a dictionary from the list of its pairs in key
  order (`DictMatchesItsPairs`; all such cases: `AgreeIff`).
* The duplicate scan of stem orders is redundant (`StemOrderMeaning`).

## Model

| member | source | states |
|---|---|---|
| `TokenReconciliation.ReconcileTokens` | scripts/whisperx_align.py:37-115 | Keeps every transcript word in order; the aligned words are exactly those of a strictly monotone one-to-one matching on equal non-empty tokens over the valid candidates, carry that candidate's span, and no such matching, however chosen, is larger. |
| `TokenReconciliation.BestIsUpperBound` | scripts/whisperx_align.py:70-79 | The table entry bounds every monotone matching of the two suffixes (no-crossing exchange), not only those the recurrence builds. |
| `TokenReconciliation.WalkAttainsBest` | scripts/whisperx_align.py:81-95 | The greedy walk from any cell is a monotone matching whose size is that cell's entry. |
| `TokenReconciliation.WalkIsOptimal` | scripts/whisperx_align.py:81-115 | What the match dictionary renders to has as many aligned words as the largest monotone matching. |
| `TokenReconciliation.AlignedCountIsMatchingSize` | scripts/whisperx_align.py:97-113 | The aligned words among the first n output words are as many as the pairs below n. |
| `TokenReconciliation.FilterCandidates` | scripts/whisperx_align.py:48-66 | Keeps exactly the entries whose string word has a token, with numeric start and end and end > start >= 0 under Python comparison (NaN never passes): as many candidates as such entries, each with its word and span behind those of the passing entries before it. |
| `TokenReconciliation.FilterMeaning` | scripts/whisperx_align.py:48-66 | The filter, said of an entry's own fields. |
| `TokenReconciliation.FilterKeepsAll` | scripts/whisperx_align.py:48-66 | No passing entry is lost, repeated or moved. |
| `TokenReconciliation.KeepsAlnumInOrder` | scripts/whisperx_align.py:32-34 | A token is the lower-cased text with every other than an alphanumeric character dropped. |
| `TokenReconciliation.CandidateFinitePositiveIff` | scripts/whisperx_align.py:48-66 | A candidate that passes is finite and positive iff it does not start at zero and its end is not infinite. |
| `TokenReconciliation.ZeroStartAndInfiniteEndAreKept` | scripts/whisperx_align.py:48-66 | Both exceptions pass the filter, for any word with a non-empty token. |
| `TokenReconciliation.FillTable` | scripts/whisperx_align.py:70-79 | Bottom-up filling leaves the longest-common-subsequence value of every pair of suffixes. |
| `TokenReconciliation.FillRow` | scripts/whisperx_align.py:72-79 | One row of the table, given the row below. |
| `TokenReconciliation.Backtrack` | scripts/whisperx_align.py:81-95 | The dictionary holds exactly the walk's pairing; matches so far plus the current entry stay equal to the first entry. |
| `TokenReconciliation.AssembleOutput` | scripts/whisperx_align.py:97-113 | One output word per transcript word, with a partner's span or none. |
| `WebpTrimming.FindLastAnmfEnd` | scripts/extract_webp_frames.py:28-37 | On any buffer the walk ends, at the end of the last visited ANMF chunk or at the buffer length. |
| `WebpTrimming.TrimTrailingChunks` | scripts/extract_webp_frames.py:28-40 | Yields a fresh buffer cut there with bytes 4-7 overwritten; fails exactly when the length does not fit the size field. |
| `WebpTrimming.KeepsChunksToLastAnmf` | scripts/extract_webp_frames.py:28-39 | For a 12-byte header and well-formed padded chunks (section 2.3 of RFC 9649), what is kept is exactly header and chunks up to the last ANMF, or everything. |
| `WebpTrimming.TrimmedIsResizedPrefix` | scripts/extract_webp_frames.py:39-40 | Bytes 4-7 decode to length - 8 and every other byte is the input's. |
| `WebpTrimming.TrimmedIsWellFormed` | scripts/extract_webp_frames.py:28-40 | A trimmed well-formed file is again a header with the right size and well-formed chunks. |
| `WebpTrimming.FramesArePreserved` | scripts/extract_webp_frames.py:35-39 | No ANMF chunk is lost or reordered. |
| `WebpTrimming.TrimmingIsIdempotent` | scripts/extract_webp_frames.py:28-40 | Trimming a trimmed buffer changes nothing, for any buffer. |
| `WebpTrimming.WalkToLastAnmf` | scripts/extract_webp_frames.py:31-37 | Over encoded chunks the walk answers the end of the last ANMF. |
| `WebpTrimming.WalkWithoutAnmf` | scripts/extract_webp_frames.py:31-37 | Over chunks without ANMF the walk answers what it started with. |
| `WebpTrimming.WalkAfterCut` | scripts/extract_webp_frames.py:31-39 | After cutting at the walk's answer the walk answers the same. |
| `WebpTrimming.WordRoundTrip` | scripts/extract_webp_frames.py:33-40 | Little-endian encoding and decoding of a size word are inverse. |
| `WebpTrimming.ChunkLayout` | scripts/extract_webp_frames.py:31-37 | The walk byte by byte: the tag is A, N, M, F, the size has its lowest byte first, an odd payload has a pad byte, the first chunk stands at byte 12. |
| `WebpTrimming.TrimFailsIff` | scripts/extract_webp_frames.py:39-40 | Trimming fails iff fewer than eight bytes are kept or too many for a 32-bit size; buffers without room for a chunk are kept whole. |
| `Fingerprint.EqualityMeaning` | experiments/minimax-h3-teacache/teacache.py:154-198 | Two fingerprints compare equal iff they have the same structure and scalars up to Python equality, everything in them is verifiable, and every pair of retained tensors is content-equal. |
| `Fingerprint.EqualityIsSymmetric` | experiments/minimax-h3-teacache/teacache.py:154-198 | Comparison is symmetric when tensor equality is. |
| `Fingerprint.EqualityIsTransitive` | experiments/minimax-h3-teacache/teacache.py:154-198 | Comparison is transitive when tensor equality is. |
| `Fingerprint.EqualToItself` | experiments/minimax-h3-teacache/teacache.py:154-198 | A fingerprint equals itself iff it is verifiable and its tensors equal themselves. |
| `Fingerprint.SnapshotIsGood` | experiments/minimax-h3-teacache/teacache.py:50-151 | Snapshots are well formed, and verifiable iff the payload has no NaN, no uncloned tensor and no list posing as a tensor. |
| `Fingerprint.UntrackableNeverMatches` | experiments/minimax-h3-teacache/teacache.py:50-198 | Fail-closed: the snapshot of an untrackable payload equals no snapshot, not even its own. |
| `Fingerprint.TrackableMatchesItself` | experiments/minimax-h3-teacache/teacache.py:50-198 | With reflexive tensor equality a payload matches its own snapshot iff it is trackable. |
| `Fingerprint.SnapshotIgnoresInsertionOrder` | experiments/minimax-h3-teacache/teacache.py:50-151 | Payloads that differ only in dictionary insertion order, at any depth, have one snapshot. |
| `Fingerprint.SortedListsCoincide` | experiments/minimax-h3-teacache/teacache.py:50-151 | Sorting entries with unique keys is canonical. |
| `FingerprintPayloads.AgreeIff` | experiments/minimax-h3-teacache/teacache.py:50-198 | Two payloads have equal fingerprints iff they agree: scalars equal as in Python; dictionaries with one key set and agreeing values; lists item by item; tensors with equal shape, dtype, device and verified content; packed layouts part by part. Across kinds only a dictionary with the list of its pairs in key order, and a packed layout with the list that spells it out. |
| `FingerprintPayloads.SnapshotExistsIff` | experiments/minimax-h3-teacache/teacache.py:74-151 | A payload can be frozen iff nothing in it, at any depth, is of an unsupported type. |
| `FingerprintPayloads.ScalarEqualIff` | experiments/minimax-h3-teacache/teacache.py:198 | Scalars are compared by value across number types; NaN equals nothing. |
| `FingerprintPayloads.TensorsAgreeIff` | experiments/minimax-h3-teacache/teacache.py:86-99 | Tensors compare equal iff shape, dtype and device are equal and both clones exist and are verified. |
| `FingerprintPayloads.ListsAgreeIff` | experiments/minimax-h3-teacache/teacache.py:102-103 | A list that does not pose as a tensor equals another iff they are equal item by item. |
| `FingerprintPayloads.DictsEqualIff` | experiments/minimax-h3-teacache/teacache.py:100-101 | Dictionaries compare equal iff they have as many entries and each finds an equal value under its key. |
| `FingerprintPayloads.AscendingIsDict` | experiments/minimax-h3-teacache/teacache.py:100-103 | A list of pairs in key order has the snapshot of the dictionary with these entries. |
| `FingerprintPayloads.EqualToDictAscends` | experiments/minimax-h3-teacache/teacache.py:100-103 | A list that equals a dictionary is such a list. |
| `FingerprintPayloads.LayoutsEqualIff` | experiments/minimax-h3-teacache/teacache.py:104-135 | Packed layouts compare equal iff their parts and position attributes do. |
| `FingerprintPayloads.LayoutListIsLayout` | experiments/minimax-h3-teacache/teacache.py:104-135 | A list that spells out a packed layout has its snapshot. |
| `FingerprintPayloads.EqualToLayoutSpells` | experiments/minimax-h3-teacache/teacache.py:104-135 | A list that equals a packed layout spells one out. |
| `FingerprintPayloads.DictMatchesItsPairs` | experiments/minimax-h3-teacache/teacache.py:100-103 | A dictionary and a list of pairs that are not told apart. |
| `TeaCache.RunTheorem` | experiments/minimax-h3-teacache/teacache.py:229-241 | Over every sequence of operations, failing forwards included: 0 <= accumulated < threshold and it is the sum of the hits' distances since the last miss; each hit lies in the window and answers the latest successful forward; hits + forwards <= step + 1 <= 20 and hits <= end - start <= 16. |
| `TeaCache.StepKeepsInv` | experiments/minimax-h3-teacache/teacache.py:279-517 | Every operation, accepted or rejected, keeps the budget, the mirror of the last forward, the counts and the conditioning invariant. |
| `TeaCache.StepKeepsBudget` | experiments/minimax-h3-teacache/teacache.py:455-468 | The accumulator and the cached pair follow the event log. |
| `TeaCache.StepKeepsCounts` | experiments/minimax-h3-teacache/teacache.py:470-489 | Counters follow the log; one counted evaluation per step. |
| `TeaCache.StepJustifiesHits` | experiments/minimax-h3-teacache/teacache.py:437-484 | A hit is in [start, end), measured against and answered by the latest successful forward. |
| `TeaCache.StepKeepsConditioning` | experiments/minimax-h3-teacache/teacache.py:423-435 | A bound fingerprint that cannot be verified admits no second evaluation. |
| `TeaCache.UnverifiableBindingEvaluatesOnce` | experiments/minimax-h3-teacache/teacache.py:423-435 | A session bound to a fingerprint that cannot be verified performs at most one counted evaluation, whatever it is called with. |
| `TeaCache.UntrackableBindingEvaluatesOnce` | experiments/minimax-h3-teacache/teacache.py:423-435 | So does one bound by a payload that cannot be tracked. |
| `TeaCache.StepBindsOnce` | experiments/minimax-h3-teacache/teacache.py:428-430 | A fingerprint, once bound, is never replaced. |
| `TeaCache.FingerprintIsGood` | experiments/minimax-h3-teacache/teacache.py:423-427 | The session's fingerprint is a well-formed snapshot, unverifiable when the payload is untrackable. |
| `TeaCache.RelL1` | experiments/minimax-h3-teacache/teacache.py:455-464 | Undefined exactly on empty tensors; otherwise non-negative, and zero when the reference norm is zero or nothing has changed. |
| `TeaCache.MakeConfig` | experiments/minimax-h3-teacache/teacache.py:213-277 | Accepts iff 20 steps, a supported threshold, a window with 2 <= start < end <= 18 (a negative end counted from 20) and 21 strictly descending sigmas; the configuration holds these. |
| `TeaCache.TeaCacheSession.constructor` | experiments/minimax-h3-teacache/teacache.py:235-262 | A new session is at step -1 with nothing cached or bound. |
| `TeaCache.TeaCacheSession.AdvanceStep` | experiments/minimax-h3-teacache/teacache.py:279-300 | Advances by exactly one step from an active session, or leaves the state unchanged with the error. |
| `TeaCache.TeaCacheSession.Evaluate` | experiments/minimax-h3-teacache/teacache.py:302-517 | The whole new state and answer of an evaluation, given what the forward pass would do. |
| `TeaCache.TeaCacheSession.AnswerOrForward` | experiments/minimax-h3-teacache/teacache.py:437-513 | Hit, miss or rejection once the fingerprint is bound; a miss resets the accumulator before the forward. |
| `TeaCache.TeaCacheSession.Forward` | experiments/minimax-h3-teacache/teacache.py:485-513 | A miss resets the accumulator before the forward, which caches its input and output only if it returns. |
| `TeaCache.TeaCacheSession.CleanupSession` | experiments/minimax-h3-teacache/teacache.py:519-525 | Drops the cache and deactivates the session. |
| `TeaCache.CleanedSessionRejects` | experiments/minimax-h3-teacache/teacache.py:302-305 | After cleanup every evaluation is rejected and changes nothing. |
| `TeaCacheDecisions.HitIff` | experiments/minimax-h3-teacache/teacache.py:437-468 | Over every run, an evaluation that passes the checks is a hit iff it is inside the window, there is a successful forward pass, its input has the call's shape, dtype and device, and the drift since the last miss plus the distance to it is below the threshold. |
| `TeaCacheDecisions.MissIff` | experiments/minimax-h3-teacache/teacache.py:437-468 | It is rejected iff the comparison cannot be made, and a miss iff there is nothing to compare with or the sum reaches the threshold. |
| `TeaCacheDecisions.HitEffect` | experiments/minimax-h3-teacache/teacache.py:466-484 | A hit adds its distance to the drift and answers with the latest forward's output, or raises if the callback does. |
| `TeaCacheDecisions.MissEffect` | experiments/minimax-h3-teacache/teacache.py:485-500 | A miss forgets the drift and sends the call's own input to the model. |
| `TeaCacheDecisions.ForwardIsRemembered` | experiments/minimax-h3-teacache/teacache.py:485-513 | A forward that returns is what later calls are compared with and answered by. |
| `TeaCacheDecisions.RelativeDistance` | experiments/minimax-h3-teacache/teacache.py:455-464 | The distance is the sum of absolute differences over the sum of absolute reference values; zero where the latter is zero. |
| `TeaCacheDecisions.DistanceGrows` | experiments/minimax-h3-teacache/teacache.py:455-456 | Differences are summed element by element. |
| `TeaCacheDecisions.ConfigAcceptedIff` | experiments/minimax-h3-teacache/teacache.py:213-277 | Thresholds 0.05, 0.1, 0.15 to four places, a window in [2, 18), 21 falling sigmas, 20 steps: accepted iff so. |
| `TeaCacheDecisions.AdvanceIff` | experiments/minimax-h3-teacache/teacache.py:279-300 | Steps are taken one by one from 0 to 19 on an active session; anything else changes nothing. |
| `TeaCacheDecisions.GuardPassesIff` | experiments/minimax-h3-teacache/teacache.py:302-427 | Which calls pass the checks before the fingerprint comparison, said of the session's and the call's fields. |
| `TeaCacheDecisions.GuardNamesTheCheck` | experiments/minimax-h3-teacache/teacache.py:302-427 | A rejected call is told of a check it fails. |
| `TeaCacheDecisions.IdentityMeaning` | experiments/minimax-h3-teacache/teacache.py:378-422 | All conditioning entries count as they are, except that transformer options lose their sigmas. |
| `TeaCacheDecisions.CallsAgreeIff` | experiments/minimax-h3-teacache/teacache.py:423-435 | Two calls have equal fingerprints iff they have the same argument names, agreeing conditioning and the same arity. |
| `TeaCacheDecisions.BoundByFirstCall` | experiments/minimax-h3-teacache/teacache.py:428-429 | A session is bound to the first call that passes the checks, for good. |
| `TeaCacheDecisions.ConditioningChangedIff` | experiments/minimax-h3-teacache/teacache.py:428-435 | Over every run a call that passes the checks is rejected for its conditioning iff it disagrees with that first call. |
| `SessionRegistry.ActiveModels.SetActive` | experiments/minimax-h3-teacache/teacache.py:540-553 | Claims the model, or reports the owner in the way and changes nothing. |
| `SessionRegistry.ActiveModels.Release` | experiments/minimax-h3-teacache/teacache.py:526-533 | Releases the model only if it is the session's own. |
| `SessionRegistry.RegistryNamesHolders` | experiments/minimax-h3-teacache/teacache.py:519-553 | In every interleaving the registry names a session iff it was activated successfully and has not been cleaned up since. |
| `SessionRegistry.HoldersAreExclusive` | experiments/minimax-h3-teacache/teacache.py:540-552 | Two different sessions never hold one model at once. |
| `SessionRegistry.RejectedIffHeld` | experiments/minimax-h3-teacache/teacache.py:543-551 | An activation is rejected iff another session holds the model, and then changes nothing. |
| `SessionRegistry.OtherCleanupIsHarmless` | experiments/minimax-h3-teacache/teacache.py:526-533 | The cleanup of a session that does not hold its model leaves every holder in place. |
| `LeaseProtocol.AttemptTracker.constructor` | apps/render-worker/src/delivery-assembly-worker.ts:63-69 | A tracker starts in phase starting with the given expiry. |
| `LeaseProtocol.AttemptTracker.UpdateLeaseExpiry` | apps/render-worker/src/delivery-assembly-worker.ts:79-81 | Replaces the expiry and nothing else. |
| `LeaseProtocol.AttemptTracker.IsFenced` | apps/render-worker/src/delivery-assembly-worker.ts:91-100 | Answers whether the attempt is fenced and fences it when an unsettled lease has expired. |
| `LeaseProtocol.Checked` | apps/render-worker/src/delivery-assembly-worker.ts:91-100 | The phase after a fence check is fenced iff it was, or the lease has expired before settlement; otherwise it is unchanged. |
| `LeaseProtocol.ReplyClasses` | apps/render-worker/src/worker.ts:41-46 | Which replies fence, which mean applied, and which client errors are not retried. |
| `DeliveryWorker.SettlementRequestsAreFenced` | apps/render-worker/src/delivery-assembly-worker.ts:271-284 | In every interleaving each complete or fail request goes out on an unexpired lease, before any superseded, not_found, 409, 404 or losing probe. |
| `DeliveryWorker.FencedOnlyBecomesSettled` | apps/render-worker/src/delivery-assembly-worker.ts:91-100 | A fenced attempt stays fenced until it is settled, and a settled one has finished. |
| `DeliveryWorker.OneKindOfSettlement` | apps/render-worker/src/delivery-assembly-worker.ts:564-658 | No attempt issues both complete and fail; one refused at start issues neither. |
| `DeliveryWorker.CompletedIsSound` | apps/render-worker/src/delivery-assembly-worker.ts:632-658 | An attempt that returns completed had an applied reply or a confirming probe and an unfenced, unexpired lease when it decided; it sees a fencing reply afterwards iff that answers the one heartbeat in flight at the decision. |
| `DeliveryWorker.CompletedByThisLeaseIff` | apps/render-worker/src/delivery-assembly-worker.ts:283-337 | Completed rests on the event just before the decision; the job was completed by this lease iff that event is not a probe that saw another lease. |
| `DeliveryWorker.CompletedMayBeAnotherLease` | apps/render-worker/src/delivery-assembly-worker.ts:313-319 | An interleaving that returns completed on a probe of a job completed under another lease, with no applied answer. |
| `DeliveryWorker.FailedIsSound` | apps/render-worker/src/delivery-assembly-worker.ts:606-650 | An attempt that returns failed without having asked for complete had its fail request applied or confirmed, on an unexpired and unfenced lease. |
| `DeliveryWorker.CompletedMayEndFenced` | apps/render-worker/src/delivery-assembly-worker.ts:651-657 | The stronger reading fails: an interleaving that returns completed although the in-flight heartbeat is then answered superseded. |
| `DeliveryWorker.SettlementCallsAreBounded` | apps/render-worker/src/delivery-assembly-worker.ts:263-354 | At most ceil(maxSettlementMs / pollIntervalMs) + 3 settlement requests, at most 3 iterations after shutdown, whatever heartbeats renew. |
| `DeliveryWorker.SettlementTerminates` | apps/render-worker/src/delivery-assembly-worker.ts:263-354 | Every step of the main coroutine during settlement lowers a bounded rank that no other step touches. |
| `DeliveryWorker.StepKeepsInv` | apps/render-worker/src/delivery-assembly-worker.ts:456-658 | Every step keeps the invariant behind the theorems above. |
| `DeliveryWorker.RunKeepsInv` | apps/render-worker/src/delivery-assembly-worker.ts:456-658 | Hence every reachable state has it. |
| `DeliveryWorker.StepKeepsCallsBounded` | apps/render-worker/src/delivery-assembly-worker.ts:263-453 | Every step keeps the request count within the poll spacing. |
| `DeliveryWorker.RequestsFollowTheAssembly` | apps/render-worker/src/delivery-assembly-worker.ts:588-633 | Over every run, complete is asked for only if the assembly succeeded, and fail only if it failed. |
| `DeliveryWorker.AssemblyResultIsSettled` | apps/render-worker/src/delivery-assembly-worker.ts:575-633 | When the assembly is over, an attempt on an unexpired, unfenced lease asks at once for complete or, if it failed, for fail; any other is abandoned without a request. |
| `DeliveryWorker.RequestsSeeTheLease` | apps/render-worker/src/delivery-assembly-worker.ts:271-284 | Every request notes the time and lease it goes out under. |
| `DeliveryWorker.LeaseFollowsReplies` | apps/render-worker/src/delivery-assembly-worker.ts:475-516 | The lease moves only when start resolves or a heartbeat is applied, to just what is then known. |
| `DeliveryWorker.AnswerDecides` | apps/render-worker/src/delivery-assembly-worker.ts:283-311 | What each answer to complete or fail leads to, for every reply. |
| `DeliveryWorker.ProbeDecides` | apps/render-worker/src/delivery-assembly-worker.ts:313-353 | What each probe leads to: the verdict, or another round after one poll interval. |
| `DeliveryWorker.WakeRequestsAgain` | apps/render-worker/src/delivery-assembly-worker.ts:271-284 | The request goes out again iff the lease is held and the deadline has not passed. |
| `DeliveryWorker.DeadlineIsFixed` | apps/render-worker/src/delivery-assembly-worker.ts:269 | The deadline is fixed when the settlement begins. |
| `DeliveryWorker.StartDecides` | apps/render-worker/src/delivery-assembly-worker.ts:222-255 | What each answer to start leads to. |
| `DeliveryWorker.HeartbeatGoesOut` | apps/render-worker/src/delivery-assembly-worker.ts:482-500 | When a woken heartbeat loop sends a heartbeat. |
| `DeliveryWorker.HeartbeatAnswers` | apps/render-worker/src/delivery-assembly-worker.ts:502-545 | A lost lease fences and stops heartbeats; an error fences only once the lease has run out. |
| `RenderWorker.SettlementFollowsGrammar` | apps/render-worker/src/worker.ts:446-553 | For any number of media objects and retries the external calls of a settlement follow the grammar; a fenced attempt issues none. |
| `RenderWorker.SettlementIsDisciplined` | apps/render-worker/src/worker.ts:482-553 | Every put directly follows a successful admission of the job kind's class; complete first goes out after all puts and one more admission; defer and fail never both occur, and neither once complete has returned. |
| `RenderWorker.GrammarIsDisciplined` | apps/render-worker/src/worker.ts:504-553 | The same of every trace of the grammar. |
| `RenderWorker.NoHeartbeatDuringSettlement` | apps/render-worker/src/worker.ts:452-502 | From the first settlement call on, no step notes a heartbeat sent or answered, and the trace only grows. |
| `RenderWorker.NoHeartbeatAfterExecution` | apps/render-worker/src/worker.ts:376-459 | On every attempt, fenced or not, no heartbeat is issued at any point after the executor has settled. |
| `RenderWorker.CompletedWasAppliedIff` | apps/render-worker/src/worker.ts:264-296 | An attempt returns completed right behind an answer to complete; the server reported the job applied iff that answer says so. |
| `RenderWorker.CompletedMayBeSuperseded` | apps/render-worker/src/worker.ts:548-552 | A reachable attempt that returns completed although complete was only answered superseded. |
| `RenderWorker.RunKeepsInv` | apps/render-worker/src/worker.ts:354-502 | Every reachable state follows the grammar and is undisturbed by heartbeats. |
| `RenderWorker.StepFollows` | apps/render-worker/src/worker.ts:354-553 | Every step extends a trace of the grammar to one of the next state. |
| `RenderWorker.StepUndisturbed` | apps/render-worker/src/worker.ts:376-466 | Every step keeps heartbeats out of the settlement. |
| `RenderWorker.AdmissionsMatchTheJob` | apps/render-worker/src/worker.ts:530-541 | In every reachable settlement candidate jobs are admitted only as candidate_upload and production jobs only as delivery_write. |
| `RenderWorker.PublishesAllMedia` | apps/render-worker/src/worker.ts:529-553 | For every number of media the undisturbed run puts each under its own admission, admits once more, completes. |
| `RenderWorker.ExecutionDecides` | apps/render-worker/src/worker.ts:446-527 | What follows the executor: nothing when fenced, defer on a storage refusal, fail on another error or a wrong payload, else the first admission. |
| `RenderWorker.AdmissionDecides` | apps/render-worker/src/worker.ts:529-541 | An admission is followed by the next put or by complete; refused it defers, otherwise it fails. |
| `RenderWorker.PutDecides` | apps/render-worker/src/worker.ts:533-541 | A put is followed by another admission; refused it defers, otherwise it fails. |
| `RenderWorker.CompleteDecides` | apps/render-worker/src/worker.ts:264-296 | What each answer to complete leads to. |
| `RenderWorker.FinalDecides` | apps/render-worker/src/worker.ts:298-352 | What each answer to defer or fail leads to. |
| `RenderWorker.WakeDecides` | apps/render-worker/src/worker.ts:264-352 | A retried call goes out again after its sleep. |
| `WorkflowGraph.ValidateDeclaredTopology` | apps/render-worker/src/render-job-executor.ts:1144-1254 | Accepts iff every declared target exists with its class and field, loaders are distinct, and each slot field links to the loader of its index. |
| `WorkflowGraph.TopologyHoldsIff` | apps/render-worker/src/render-job-executor.ts:1144-1254 | The same condition said of the template's nodes and inputs. |
| `WorkflowGraph.CheckLoaders` | apps/render-worker/src/render-job-executor.ts:1220-1230 | Accepts iff all loaders exist on pairwise different nodes. |
| `WorkflowGraph.CheckSlots` | apps/render-worker/src/render-job-executor.ts:1231-1252 | Accepts iff slots and loaders pair up, each slot linking to output 0 of its loader. |
| `WorkflowGraph.MutateWorkflow` | apps/render-worker/src/render-job-executor.ts:1290-1501 | Succeeds iff topology, payload and final schema are accepted, and then performs exactly its plan of edits; says for every error exactly when it is the reason to fail. |
| `WorkflowGraph.InjectScalars` | apps/render-worker/src/render-job-executor.ts:1300-1424 | Performs the scalar injections in program order. |
| `WorkflowGraph.InjectLoaders` | apps/render-worker/src/render-job-executor.ts:1438-1455 | Writes image i to loader i for the staged images. |
| `WorkflowGraph.DropLoaders` | apps/render-worker/src/render-job-executor.ts:1457-1461 | Deletes the loaders of unused slots. |
| `WorkflowGraph.EditReferenceNode` | apps/render-worker/src/render-job-executor.ts:1463-1487 | Deletes unused slot fields and writes the size fields, if the reference node is still there. |
| `WorkflowGraph.EditsKeepNodes` | apps/render-worker/src/render-job-executor.ts:1297-1501 | A plan keeps exactly the nodes it does not drop, with their class types. |
| `WorkflowGraph.EditsReadBack` | apps/render-worker/src/render-job-executor.ts:1297-1501 | Reading a field after a plan finds the last edit of it. |
| `WorkflowGraph.DistinctTargetsAreConsistent` | apps/render-worker/src/render-job-executor.ts:1297-1501 | With pairwise distinct (node, field) targets no two edits of one field disagree. |
| `WorkflowGraph.PlacesAfterMutation` | apps/render-worker/src/render-job-executor.ts:1297-1501 | With distinct targets every declared place outside pruned loaders holds afterwards what was injected, nothing where it was pruned, or what was there. |
| `WorkflowGraph.UndeclaredFieldsUntouched` | apps/render-worker/src/render-job-executor.ts:1297-1501 | Every field outside the declared pairs is unchanged in every node that stays. |
| `WorkflowGraph.InjectedValueLostIff` | apps/render-worker/src/render-job-executor.ts:1457-1461 | An injected value is missing afterwards iff its target sits on a pruned loader. |
| `WorkflowGraph.TargetOnUnusedLoaderIsLost` | apps/render-worker/src/render-job-executor.ts:1457-1461 | A mutation with distinct targets that succeeds and loses its prompt that way. |
| `WorkflowGraph.WritesReadBackIff` | apps/render-worker/src/render-job-executor.ts:1297-1501 | For any consistent plan: a write reads back iff its node is not dropped. |
| `WorkflowGraph.OtherFieldsUntouched` | apps/render-worker/src/render-job-executor.ts:1297-1501 | For any plan: fields no edit names are unchanged in nodes that stay. |
| `WorkflowGraph.LoadersRemovedExactly` | apps/render-worker/src/render-job-executor.ts:1457-1461 | The nodes removed are exactly the loaders of slots N and up; class types never change. |
| `WorkflowGraph.SlotsAfterMutation` | apps/render-worker/src/render-job-executor.ts:1463-1475 | Of nine slots, those below N keep the template's link and the others are gone. |
| `WorkflowGraph.ActiveSlotsKeepTheirLoader` | apps/render-worker/src/render-job-executor.ts:1438-1475 | Every surviving slot link points at a surviving image loader. |
| `WorkflowGraph.SlotChecksAcceptIff` | apps/render-worker/src/render-job-executor.ts:1645-1673 | The schema's slot checks accept the mutated graph iff every active slot link of the template has exactly two elements. |
| `WorkflowGraph.MutationAcceptedIff` | apps/render-worker/src/render-job-executor.ts:1297-1501 | For nine slots and distinct targets the mutation succeeds iff topology, payload and the schema's controls are accepted and every active slot link has two elements. |
| `WorkflowGraph.LongLinksAreRejected` | apps/render-worker/src/render-job-executor.ts:1645-1673 | For the shipped topology and a template that is otherwise complete: the topology check passes, and the mutation succeeds iff the payload is usable and the links have two elements or there are no references. |
| `WorkflowGraph.ShippedTargetsAreDistinct` | packages/contracts/src/render-profile.ts:421-482 | The shipped reference-to-video topology has distinct targets and nine slots. |
| `WorkflowGraph.ValidateReferenceSchema` | apps/render-worker/src/render-job-executor.ts:1578-1674 | Accepts iff the reference node has its class, links, positive sizes, prompt, size mode, active slots linked to image loaders and inactive slots absent. |
| `WorkflowGraph.SchemaHoldsIff` | apps/render-worker/src/render-job-executor.ts:1578-1674 | The same conditions said of the node's inputs and the nodes they link to. |
| `CampaignAnimatic.GapFreeIff` | packages/contracts/src/campaign-animatic.ts:230-266 | A scene is playable iff a non-empty selection, of this revision or of none, resolves to a plan of the current revision. |
| `CampaignAnimatic.GapReasonIff` | packages/contracts/src/campaign-animatic.ts:230-266 | Why a scene is a gap: the first of the four reasons that applies. |
| `CampaignAnimatic.GapDurationIsNearest` | packages/contracts/src/campaign-animatic.ts:328-334 | A gap lasts its scene's duration to the nearest millisecond, at least a second; four seconds without a duration. |
| `CampaignAnimatic.CompileReadModel` | packages/contracts/src/campaign-animatic.ts:297-421 | The loop compiles scenes, stably sorted by scene order, into segments that start where the scenes before them end, with the totals and counts of those scenes. |
| `CampaignAnimatic.CompiledIsTiled` | packages/contracts/src/campaign-animatic.ts:319-407 | For positive plan durations the segments tile [0, totalDurationMs] contiguously. |
| `CampaignAnimatic.SegmentsAreSortedScenes` | packages/contracts/src/campaign-animatic.ts:304-404 | Segments are the scenes, one for one, with their ids, orders and gap or plan content. |
| `CampaignAnimatic.SegmentContents` | packages/contracts/src/campaign-animatic.ts:321-387 | What each segment carries over from its scene: the gap's reason and length, or the plan, its length and whether it is approved. |
| `CampaignAnimatic.SegmentsAscend` | packages/contracts/src/campaign-animatic.ts:303-304 | Segments ascend by scene order. |
| `CampaignAnimatic.SceneOrderIsStable` | packages/contracts/src/campaign-animatic.ts:303-304 | Scenes of equal order keep the order they came in. |
| `CampaignAnimatic.TotalIsIncludedPlusGaps` | packages/contracts/src/campaign-animatic.ts:319-407 | Included duration is the plan segments' time and the total adds exactly the gap segments' time. |
| `CampaignAnimatic.CountsPartitionScenes` | packages/contracts/src/campaign-animatic.ts:322-421 | Gaps, approved shots and drafts partition the scenes and count the segments of each kind. |
| `CampaignAnimatic.FindActiveSegment` | packages/contracts/src/campaign-animatic.ts:133-150 | The scan answers the first segment whose window holds the clamped time, else the last. |
| `CampaignAnimatic.ActiveIsTheWindow` | packages/contracts/src/campaign-animatic.ts:133-150 | On a tiled model that is the one segment whose window holds the clamped time, for every time: the fallback is never taken. |
| `CampaignAnimatic.WindowsAreDisjoint` | packages/contracts/src/campaign-animatic.ts:141-147 | At most one window holds a time. |
| `CampaignAnimatic.ScanFindsWindow` | packages/contracts/src/campaign-animatic.ts:141-149 | Scanning a tiled model always finds a window. |
| `CampaignAnimatic.LocalTimeIsClampedTime` | packages/contracts/src/campaign-animatic.ts:155-160 | Segment start plus shot-local time is the clamped time, for every time. |
| `CampaignAnimatic.ShotLocalTimeIsNearest` | packages/contracts/src/campaign-animatic.ts:155-160 | The time into any shot, brought inside the shot. |
| `CampaignAnimatic.NextVisitsEveryStart` | packages/contracts/src/campaign-animatic.ts:165-174 | Iterating next from 0 visits every start in order, reaches the total in exactly n steps and stays there. |
| `CampaignAnimatic.NextIsEndOfActive` | packages/contracts/src/campaign-animatic.ts:165-174 | Next is the following start, or the total. |
| `CampaignAnimatic.PreviousOfStartIff` | packages/contracts/src/campaign-animatic.ts:180-204 | From the start of segment i > 0, previous is start i - 1 iff no earlier segment has the same scene id and order, or i is 1. |
| `CampaignAnimatic.PreviousOfNextIff` | packages/contracts/src/campaign-animatic.ts:180-204 | With unique keys, previous after next is the start of the segment left, unless that is a last segment (of several) no longer than the threshold, and only then. |
| `CampaignAnimatic.DistinctScenesHaveUniqueKeys` | packages/contracts/src/campaign-animatic.ts:180-204 | Scenes with pairwise distinct (scene id, scene order) compile to segments with unique keys, so the seek laws apply. |
| `CampaignAnimatic.PreviousVisitsEveryStart` | packages/contracts/src/campaign-animatic.ts:180-204 | With unique keys, k steps back from a start are k segments back. |
| `CampaignAnimatic.PreviousReachesZero` | packages/contracts/src/campaign-animatic.ts:180-204 | Whatever the keys, seeking back from any time reaches 0 within n + 1 steps. |
| `CampaignAnimatic.PreviousMeaning` | packages/contracts/src/campaign-animatic.ts:180-204 | At every time of the animatic: past the threshold previous is the start of the active segment, and otherwise, with unique keys, the start before it or 0. |
| `CampaignAnimatic.PreviousByKey` | packages/contracts/src/campaign-animatic.ts:180-204 | Within the threshold and whatever the keys, previous is the start before the first segment with the active one's key. |
| `CampaignReadiness.ProjectScene` | packages/contracts/src/campaign-readiness.ts:248-476 | The projection of a scene, its blockers pushed in turn being exactly the due ones in reporting order. |
| `CampaignReadiness.PushReferenceBlockers` | packages/contracts/src/campaign-readiness.ts:267-302 | Pushes exactly the due reference blockers. |
| `CampaignReadiness.PushSelectionBlockers` | packages/contracts/src/campaign-readiness.ts:303-337 | Pushes exactly the due planning and selection blockers; stale and unselected exclude each other. |
| `CampaignReadiness.PushPlanBlockers` | packages/contracts/src/campaign-readiness.ts:339-367 | Pushes exactly the due approval and anchor blockers. |
| `CampaignReadiness.PushAnimaticBlocker` | packages/contracts/src/campaign-readiness.ts:369-392 | Pushes the animatic blocker iff the scene is a gap. |
| `CampaignReadiness.StatusMeaning` | packages/contracts/src/campaign-readiness.ts:228-234 | A scene is blocked iff a blocking code is due and ready iff none is due. |
| `CampaignReadiness.BlockedIff` | packages/contracts/src/campaign-readiness.ts:262-311 | A scene is blocked iff it has no binding or more than nine, an archived or foreign one, or no plan for its revision. |
| `CampaignReadiness.BlockingReports` | packages/contracts/src/campaign-readiness.ts:267-311 | Each blocking report is made iff its condition on the scene's fields holds. |
| `CampaignReadiness.AttentionReports` | packages/contracts/src/campaign-readiness.ts:313-392 | Each report that asks for attention is made iff its condition on the scene's fields holds. |
| `CampaignReadiness.ReportsAscend` | packages/contracts/src/campaign-readiness.ts:267-392 | Nothing is reported twice, and reports come in one fixed order. |
| `CampaignReadiness.ProjectionMeaning` | packages/contracts/src/campaign-readiness.ts:394-476 | The projection's other entries and its advisories, said of the scene's fields. |
| `CampaignReadiness.ReadyIff` | packages/contracts/src/campaign-readiness.ts:248-412 | A scene is ready iff it has 1 to 9 current bindings, a current plan, no animatic gap, an approval where its selection has a revision, and a current anchor where it is frame-anchored. |
| `CampaignReadiness.WorstIsWorst` | packages/contracts/src/campaign-readiness.ts:499-505 | The reduce finds the worst status. |
| `CampaignReadiness.ReadinessMeaning` | packages/contracts/src/campaign-readiness.ts:499-505 | Campaign ready iff it has scenes and all are ready; blocked iff it has none or one is blocked. |
| `CampaignReadiness.CampaignReadyIff` | packages/contracts/src/campaign-readiness.ts:243-505 | Campaign ready iff it has scenes and every scene given meets the ready conditions. |
| `CampaignReadiness.AggregatesCountScenes` | packages/contracts/src/campaign-readiness.ts:479-497 | Each aggregate counts the scenes given that meet its own condition, in whatever order they came. |
| `CampaignReadiness.StatusCountsPartitionScenes` | packages/contracts/src/campaign-readiness.ts:479-484 | The three status counts partition the scenes. |
| `CampaignReadiness.ReadyCampaignCounts` | packages/contracts/src/campaign-readiness.ts:479-505 | In a ready campaign every scene is counted ready, bound, planned and in the animatic, none stale. |
| `CampaignReadiness.ReadySceneLacksApprovalIff` | packages/contracts/src/campaign-readiness.ts:339-355 | A ready scene has no approval of its current revision iff its selection has no revision and it has no approval, or its approval is of another revision. |
| `CampaignReadiness.ReadyWithoutApproval` | packages/contracts/src/campaign-readiness.ts:339-355 | Ready campaigns without any approved scene, one of either kind. |
| `CampaignReadiness.ReadyCampaignApprovedIff` | packages/contracts/src/campaign-readiness.ts:394-395 | A ready campaign is counted fully approved iff none of its scenes is of either kind. |
| `CampaignReadiness.ProjectionsAgreeWithSegments` | packages/contracts/src/campaign-readiness.ts:369-391 | On corresponding scenes projection i is included iff segment i has a plan, and a gap has the same reason in both. |
| `CampaignReadiness.CompilersAgreeOnCounts` | packages/contracts/src/campaign-readiness.ts:479-497 | scenesInCampaignAnimaticCount = approved + draft shots = total - gaps. |
| `CampaignReadiness.ReadyCampaignHasGapFreeAnimatic` | packages/contracts/src/campaign-readiness.ts:499-505 | A ready campaign has a non-empty animatic without gaps, all of it included shot time. |
| `AudioTiming.AcceptedIffDivision` | packages/contracts/src/audio-asset.ts:133-175 | A reference is accepted iff the slice is a positive part of the source, consumed time is positive, and loop count and partial loop are its quotient and remainder by the slice. |
| `AudioTiming.LoopDataIsUnique` | packages/contracts/src/audio-asset.ts:133-175 | Trim, pads and length determine the loop data. |
| `AudioTiming.LoopDataExists` | packages/contracts/src/audio-asset.ts:133-175 | Any reference with a usable slice has accepted loop data. |
| `AudioTiming.DivisionIsUnique` | packages/contracts/src/audio-asset.ts:155-166 | Quotient and remainder are the only split. |
| `AssemblyExecution.InvariantIssueIff` | packages/contracts/src/assembly-execution-invariants.ts:127-368 | Validation keeps the issues reported before and reports an issue exactly when the rule it stands for is broken, whatever else is. |
| `AssemblyExecution.DurationIssueIff` | packages/contracts/src/assembly-execution-invariants.ts:134-175 | Each of rules 1 to 4 reports its issue exactly when it is broken; a stem issue for exactly the stems that disagree with their timeline entry. |
| `AssemblyExecution.TimingIssueIff` | packages/contracts/src/assembly-execution-invariants.ts:197-301 | Rules 6 and 7 report exactly the issues the reference's own schema reports, and an overflow exactly when the reference ends more than 250 ms late. |
| `AssemblyExecution.NoDurationIssueIff` | packages/contracts/src/assembly-execution-invariants.ts:134-175 | Nothing is reported iff nothing was before and counts, stem durations, sum and output duration all agree. |
| `AssemblyExecution.NoSubtitleIssueIff` | packages/contracts/src/assembly-execution-invariants.ts:177-195 | Nothing is reported iff nothing was before and any cues come with a non-blank style and fit the timeline. |
| `AssemblyExecution.NoAudioIssueIff` | packages/contracts/src/assembly-execution-invariants.ts:197-320 | On well-formed executions nothing is reported iff nothing was before, audio ends in time, and executed audio is encoded and measured. |
| `AssemblyExecution.NoStreamIssueIff` | packages/contracts/src/assembly-execution-invariants.ts:322-367 | Nothing is reported iff nothing was before and measured durations, size and rate agree with timeline and output. |
| `AssemblyExecution.CheckStems` | packages/contracts/src/assembly-execution-invariants.ts:143-155 | Reports, in listing order, the stems whose timeline entry has another duration. |
| `AssemblyExecution.ValidateSubtitleTimeline` | packages/contracts/src/subtitle-cue.ts:30-54 | Accepts iff the total is positive and every cue is a positive span inside it. |
| `AssemblyExecution.AcceptedAudioOnlyOverflows` | packages/contracts/src/assembly-execution-invariants.ts:197-301 | For a reference its own schema accepted, rules 6 and 7 can only report an overflow of the timeline, and do iff it ends more than 250 ms late. |
| `AssemblyExecution.ListedStemsSumToTotal` | packages/contracts/src/assembly-execution-invariants.ts:143-165 | If rules 1 to 4 hold and orders are a permutation, the stems' durations in listing order sum to the timeline total. |
| `AssemblyExecution.CheckStemOrder` | packages/contracts/src/assembly-execution.ts:120-137 | The duplicate scan and the sorted comparison accept exactly the permutations of 0..n-1. |
| `AssemblyExecution.HasDuplicates` | packages/contracts/src/assembly-execution.ts:121-130 | The scan with early exit finds a repeated order iff there is one. |
| `AssemblyExecution.StemOrderMeaning` | packages/contracts/src/assembly-execution.ts:131-133 | The sorted comparison alone already decides; permutations have no duplicates. |
| `AssemblyExecution.RefineResult` | packages/contracts/src/assembly-execution.ts:119-290 | Reports stem order, shared invariants, cue hash and profile issues in that order. |
| `AssemblyExecution.ParseResult` | packages/contracts/src/assembly-execution.ts:89-291 | Accepts iff the fields are well formed and no refinement reports an issue. |
| `AssemblyExecution.ProfileIssueIff` | packages/contracts/src/assembly-execution.ts:177-290 | Under the vertical reel profile a field is reported exactly when it is not what the profile asks for; under another key nothing is. |
| `AssemblyExecution.NoProfileIssueIff` | packages/contracts/src/assembly-execution.ts:177-290 | Nothing is reported iff nothing was before and the execution has the profile's layout, formats and rates. |
| `AssemblyExecution.NoIssueIff` | packages/contracts/src/assembly-execution.ts:119-290 | No issue is reported iff none was before and every rule, said directly, holds. |
| `AssemblyExecution.ResultAcceptedIff` | packages/contracts/src/assembly-execution.ts:89-291 | A well-formed result is accepted iff its stems are listed by a permutation and match the timeline, durations agree within 250 ms, subtitles are styled, inside and hashed, streams agree with the output, and the profile holds. |
| `AssemblyExecution.AcceptedDurations` | packages/contracts/src/assembly-execution.ts:119-156 | An accepted result has stem orders that permute 0..n-1, stems that sum to the timeline in listing order, an output within 250 ms of that sum, and audio and video within 500 ms of each other. |
| `AssemblyExecution.TolerancesAreTight` | packages/contracts/src/assembly-execution-invariants.ts:167-175 | An accepted result that reaches both bounds exactly. |
| `AssemblyManifest.CheckIds` | packages/contracts/src/assembly-manifest.ts:109-128 | Reports a length mismatch, else the mismatching positions in order. |
| `AssemblyManifest.ParseManifest` | packages/contracts/src/assembly-manifest.ts:108-305 | Accepts iff the manifest's fields are well formed and no refinement reports an issue. |
| `AssemblyManifest.ManifestAcceptedIff` | packages/contracts/src/assembly-manifest.ts:108-305 | A manifest is accepted iff its execution is accepted as a result, its ids are the stems' ids in listing order, and governance id and date are valid. |
| `AssemblyManifest.CreateManifest` | packages/contracts/src/assembly-manifest.ts:330-371 | Succeeds iff the execution is accepted, the governance id non-empty and the date valid; the manifest is then accepted, carries the execution unchanged and lists the stem ids in listing order; a hash mismatch is its own error. |
| `StableSorting.SortIsStable` | packages/contracts/src/campaign-animatic.ts:303-304 | Library sorting keeps tied elements in order. |
| `StableSorting.SortKeepsApart` | packages/contracts/src/campaign-animatic.ts:303-304 | Sorting keeps pairwise distinct elements distinct. |
| `StableSorting.SortCorresponds` | packages/contracts/src/campaign-readiness.ts:247-249 | Sorting two corresponding lists by agreeing comparisons keeps them corresponding. |

## Left out

- Token normalization: Unicode classification and lower-casing are parameters; every result holds for all of them.
- Python numbers in collected words: booleans count as numbers as in Python; integers too large for a float are not modelled.
- WebP decoding, frame extraction and durations behind the trimming.
- Floating-point rounding in TeaCache: distances and sums are reals; the distance of empty tensors is undefined and rejected, as NaN is.
- The retry of a forward pass without its timestep argument after a TypeError: both attempts count as one forward pass that returns or fails.
- In-place changes to the tensors a hit or a forward handed out: clones are values. The fingerprint's freedom from aliasing is by construction.
- Dictionary keys other than strings, and objects whose attribute access raises, in fingerprints.
- The context variable that makes a session current, and locks inside one operation: each operation is atomic.
- Session event callbacks, logging and message texts everywhere.
- Claim and poll loops of both workers, jobs without a lease token, and license-error formatting.
- Continuations of a settled promise belong to the step that settles it, except the heartbeat loop's own; the clock is monotone and stands still between two awaits; a sleep takes at least its time unless aborted.
- The server: any reply may come at any point; nothing is assumed about its queue.
- RenderWorker retry loops have no bound in the program, so no termination is claimed for them.
- Profile lookup, JSON parsing and the branch of the mutation for profiles without a topology.
- Arrays and other objects in the place of a node's inputs, and JSON values below array elements.
- Integer width of injected numbers: they are mathematical integers.
- The animatic of a single shot plan, its media and the snapshot hashes: carried over unchanged by the compilers.
- NaN durations and times in the campaign timeline; a duration text counts as its parsed value.
- Roles, previs candidates, drill-downs and messages of readiness projections.
- Identity, FFmpeg, media and staging fields of results and manifests, and the digest format: the same field checks on both sides, copied unchanged.
- SHA-256 of subtitle cues, blankness of strings and ISO 8601 validity are parameters; a missing creation date is supplied by the caller.
- Products beyond 2^53 in audio timing: integers are unbounded.
- Deep freezing of accepted values.
- Rules 6 and 7 differ only in their messages and are one member; likewise one stem-order check and one profile check serve result and manifest.
