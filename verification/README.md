# CacheSelect: a Dafny model of cache-reuse analysis and its evidence base

CacheSelect decides which KV-cache blocks of a previous prompt can be reused for an edited prompt, and
builds the evidence for that decision: counterfactual trials, request ledgers, blind reviews and
selector thresholds. This project models the algorithmic core of that code and proves what it promises,
for all inputs and, for the protocols, over all runs.

| file | models |
|---|---|
| `GatedDelta.dfy` | the gated delta recurrence of one state row, cached block operators, their exactness, composition and uniqueness |
| `GatedDeltaTensors.dfy` | the tensor code on top: grouped heads, propagation, building and applying an operator |
| `GatedDeltaBlocks.dfy` | chains of cached blocks on whole tensors, and the full recurrence whose difference the deltas are |
| `Batching.dfy` | the greedy batching loop and its optimality |
| `ReferenceFreeze.dfy` | freezing the full reference plan: survey, one manifest per split, sorting, batches |
| `ReferenceQuality.dfy` | the rolling-row LCS program, token recall and ROUGE-L |
| `TokenEdges.dfy`, `ReuseOpportunity.dfy` | shared prompt edges, the window index, candidate blocks and the analysis |
| `BlockFeatures.dfy`, `ContextFeatures.dfy` | the edit envelope, feature rows, and matching runs around a block |
| `RequestLedger.dfy`, `LedgerConsolidation.dfy` | recorder, handles and validator; trimming, merging and indexing of runs |
| `ReferenceExpansion.dfy` | round-robin, least-used-first task selection and its uniqueness |
| `SelectorThresholds.dfy` | recall thresholds and reuse budgets |
| `BreakEvenCalibration.dfy` | doubling and bisection for the prompt length |
| `BlindReview.dfy` | blinding, grouping, applying and unblinding verdicts |
| `CounterfactualTrials.dfy`, `TrainingRows.dfy`, `CaseConsolidation.dfy` | trials and labels, training rows and summaries, merging all cases |
| `Common.dfy`, `Arithmetic.dfy` | results, options, counting positions, string order, division and ratio facts |

`dafny verify dfyconfig.toml` checks the whole project.

Modelling choices. Tensors and ratios are over `real`, so rounding is absent; `exp(log_decay)` and the
output scale are arbitrary reals. Repair scores are a discrete total order, so that the float after a
score is its successor. Hash ranks, coins and clocks are arbitrary functions or parameters, UUIDs are
fresh identifiers, and one append to a ledger is one step. Raised exceptions are `Err` results. Answers of
the model server are parameters of the trial that receives them.

Where a promise does not hold of the code, the code is kept and the exact condition is proved:

- A blind verdict on two equal texts follows the slot coin (`BlindReview.EqualTextsFollowTheCoin`); the
  coin is irrelevant if and only if the texts differ or the verdict is not one-sided
  (`BlindReview.OutcomeIgnoresCoinIff`).
- The unblinding join accepts a review that lists one trial twice in place of another
  (`BlindReview.RepeatHidesTrial`); it covers every key if and only if the rows are distinct
  (`BlindReview.JoinCoversKeysIff`).
- Trimming an interrupted ledger whose requests overlap can leave a request open
  (`LedgerConsolidation.InterleavedTrimIsIncomplete`); a cut is safe if and only if no request straddles it
  (`LedgerConsolidation.CutIsSuccessfulIff`).
- A recall threshold exists if and only if some label asks for repair
  (`SelectorThresholds.SelectRepairThreshold`); otherwise the source takes the maximum of an empty list.
- The code has checks that can never fire: the no-progress error of the expansion
  (`ReferenceExpansion.SelectExpansion`), "the first logical block must differ" of the calibration
  (`BreakEvenCalibration.EditInFirstBlock`), the labelling errors of a trial
  (`CounterfactualTrials.LabelNeverRaises`), and the consistency checks on recorded trials when rows are saved
  (`TrainingRows.RecordedIsSavableIff`). The reference-drift count of a completed case is always zero, because
  the trials are compared with the very answer they share (`TrainingRows.RunWorkflow`).

## Model

| member | source | states |
|---|---|---|
| `DeltaRows.OperatorIsExact` | benchmarks/gdn_delta_reference.py:133-227 | for every block and incoming row, the cached transition gives the final row and the cached responses give every per-token output of token-by-token propagation |
| `DeltaRows.OperatorIsUnique` | benchmarks/gdn_delta_reference.py:179-204 | whatever matrix and responses reproduce propagation on the unit rows alone are the built ones |
| `DeltaRows.OperatorsCompose` | benchmarks/gdn_delta_reference.py:179-204 | the transition of a concatenated block is the product of the two, and the second block's responses are premultiplied by the first transition |
| `DeltaRows.ChainIsExact` | benchmarks/gdn_delta_reference.py:208-227 | applying any number of cached blocks one after the other equals one run over all their tokens, states and outputs |
| `DeltaRows.RankOneIsStep` | benchmarks/gdn_delta_reference.py:187-194 | the rank-one update of a transition row is the propagation step of that row |
| `DeltaRows.StepProbe` | benchmarks/gdn_delta_reference.py:98-102 | along any direction a step decays what the row holds, less `beta` times the decayed read at the key; a direction orthogonal to the key only decays |
| `DeltaRows.FullStepProbe` | tests/test_gdn_delta_reference.py:15-44 | the full step adds a share `beta` of what the value exceeds the decayed read by, along the key and nowhere else |
| `DeltaRows.DeltaIsDifferenceOfRuns` | benchmarks/gdn_delta_reference.py:98-102 | the value term cancels: the delta run is the exact difference of two full recurrences over the same tokens and values |
| `DeltaRows.OutputIsDifferenceOfRuns` | tests/test_gdn_delta_reference.py:15-44 | every output effect is the difference of the outputs of two full runs |
| `DeltaTensors.ExpansionRepeatsHeads` | benchmarks/gdn_delta_reference.py:75-80 | when the head counts divide, expansion succeeds and repeats every head in place, as many times as value heads share it |
| `DeltaTensors.PropagateStateDelta` | benchmarks/gdn_delta_reference.py:106-152 | succeeds exactly on agreeing shapes, with the state after every token and the output that reads it, whose recurrences `StateRecurrence` and `OutputRecurrence` state |
| `DeltaTensors.StateRecurrence` | benchmarks/gdn_delta_reference.py:133-140 | the states start at the incoming one, and value head `h` steps with the key of its group and its own decay and beta |
| `DeltaTensors.OutputRecurrence` | benchmarks/gdn_delta_reference.py:141-145 | the output at a token is what the query of the head's group reads from the state right after that token, scaled |
| `DeltaTensors.BuildBlockDeltaOperator` | benchmarks/gdn_delta_reference.py:156-204 | succeeds exactly on agreeing shapes, and the loop of rank-one updates yields the cached operator, whose recurrences `TransitionRecurrence` and `OperatorReads` state |
| `DeltaTensors.TransitionRecurrence` | benchmarks/gdn_delta_reference.py:179-194 | the transition starts as the identity and every row steps with the key of the head's group |
| `DeltaTensors.OperatorReads` | benchmarks/gdn_delta_reference.py:195-204 | the cached transition is the one after the last token, and each response is what the query of the group reads from the transition right after its token |
| `DeltaTensors.ApplyMatchesPropagation` | benchmarks/gdn_delta_reference.py:133-227 | for every grouped-head layout and incoming state, applying the built operator succeeds and gives the final state and all outputs of propagation |
| `DeltaTensors.BroadcastReads` | benchmarks/gdn_delta_reference.py:224-226 | a cached response of a single head serves every value head, and one of a single entry multiplies the sum of the row |
| `DeltaBlocks.BlocksCompose` | benchmarks/gdn_delta_reference.py:176-204 | on whole tensors, the operator of two blocks in sequence is the composition of theirs |
| `DeltaBlocks.PropagationContinues` | benchmarks/gdn_delta_reference.py:127-152 | propagation over two blocks is propagation over the first, then over the second from its final state |
| `DeltaBlocks.ChainMatchesPropagation` | benchmarks/gdn_delta_reference.py:106-227 | applying the cached operators of any number of blocks in sequence gives the final state and every output of one propagation over all their tokens |
| `DeltaBlocks.DeltaIsDifference` | benchmarks/gdn_delta_reference.py:84-102 | after any number of tokens the state delta is the exact difference of two full runs on the same tokens and values, for every head and row |
| `DeltaBlocks.FullStateRecurrence` | tests/test_gdn_delta_reference.py:15-44 | the full states start at the incoming one, and every row steps with the key of its group and stores its own value |
| `DeltaBlocks.FullOutputReads` | tests/test_gdn_delta_reference.py:15-44 | the full output is what the query of the head's group reads from the full state right after its token |
| `DeltaBlocks.CachedOutputIsDifference` | tests/test_gdn_delta_reference.py:15-44 | a cached operator applied to the difference of two states gives the exact difference of the outputs of the two full executions |
| `Batching.GreedyBatches` | benchmarks/freeze_mtrag_reference_expansion.py:256-286 | the records tile the cases contiguously with right starts, counts and totals, never mix splits, exceed the target only with a single case, and no admissible contiguous plan has fewer batches |
| `Batching.GreedyStaysAhead` | benchmarks/freeze_mtrag_reference_expansion.py:259-277 | after every number of batches the greedy plan has covered at least as many cases as any other |
| `Batching.GreedyIsMinimal` | benchmarks/freeze_mtrag_reference_expansion.py:259-286 | a plan whose batches are all full has the fewest batches among all admissible contiguous plans |
| `Batching.BatchesConserveBlocks` | benchmarks/freeze_mtrag_reference_expansion.py:265-286 | case and block counts of the batches add up to what they cover |
| `ReferenceFreeze.SurveyCoverage` | benchmarks/freeze_mtrag_reference_expansion.py:174-225 | the loop collects the frozen transitions in order, their largest prompt and block count, and per split the transitions with candidates, with testable blocks, and excluded |
| `ReferenceFreeze.FrozenPositions` | benchmarks/freeze_mtrag_reference_expansion.py:196-225 | frozen are exactly the transitions with candidates and testable blocks that are not excluded, in their order |
| `ReferenceFreeze.CountsArePositions` | benchmarks/freeze_mtrag_reference_expansion.py:196-209 | each counter of a split is the number of its transitions with candidates, with testable blocks, and excluded |
| `ReferenceFreeze.MaximaAttained` | benchmarks/freeze_mtrag_reference_expansion.py:210-211 | the recorded maxima are reached by a frozen transition |
| `ReferenceFreeze.FrozenCount` | benchmarks/freeze_mtrag_reference_expansion.py:204-238 | executable less excluded transitions of a split are its frozen ones |
| `ReferenceFreeze.RawPartition` | benchmarks/freeze_mtrag_reference_expansion.py:227-228 | the counts of the splits add up to all transitions with candidates |
| `ReferenceFreeze.FrozenAreEligible` | benchmarks/freeze_mtrag_reference_expansion.py:232-242 | under the surveyed bounds every frozen transition of a split is eligible for its selection, and in a coherent artifact nothing else is |
| `ReferenceFreeze.SelectSplit` | benchmarks/freeze_mtrag_reference_expansion.py:232-250 | the selection of a split fails exactly on missing or repeated identifiers or when the split has no frozen transition; its manifest then holds as many distinct tasks, all eligible under the surveyed bounds, in a coherent artifact exactly the frozen ones |
| `ReferenceFreeze.SortTransitions` | benchmarks/freeze_mtrag_reference_expansion.py:252-255 | a permutation sorted by split and task, with the same blocks |
| `ReferenceFreeze.SortedMeaning` | benchmarks/freeze_mtrag_reference_expansion.py:252-255 | in a sorted plan train comes before validation before test, and within a split no task follows one with a larger ID |
| `ReferenceFreeze.FreezeReferencePlan` | benchmarks/freeze_mtrag_reference_expansion.py:154-286 | a plan exists exactly for a positive target, the declared number of transitions with candidates, present and distinct identifiers and a frozen transition in every split; each batch covers consecutive sorted transitions of one split, records its number, split, first case, case and block count, and exceeds the target only for a single case; no other such batching has fewer batches, and no block is lost |
| `ReferenceQuality.LongestCommonSubsequenceLength` | benchmarks/reference_quality.py:32-45 | the rolling rows return the maximum length of a common subsequence |
| `ReferenceQuality.LcsIsUpperBound` | benchmarks/reference_quality.py:32-45 | no common subsequence is longer |
| `ReferenceQuality.LcsIsAttained` | benchmarks/reference_quality.py:32-45 | some common subsequence has that length |
| `ReferenceQuality.LcsSymmetric` | benchmarks/reference_quality.py:32-45 | the length does not depend on the order of the arguments |
| `ReferenceQuality.LcsFullIffEqual` | benchmarks/reference_quality.py:32-45 | both sequences are common in full exactly when they are equal |
| `ReferenceQuality.LcsAtMostOverlap` | benchmarks/reference_quality.py:27-45 | ordered agreement never exceeds the multiset overlap |
| `ReferenceQuality.RougeLF1Is` | benchmarks/reference_quality.py:49-62 | F1 is twice the LCS over the summed lengths, lies in the unit interval, is symmetric, and is one exactly for equal token sequences |
| `ReferenceQuality.DiceScales` | benchmarks/reference_quality.py:60-62 | the F1 is the one number that scales the tokens of both sides to twice the common length |
| `ReferenceQuality.RecallIsAttained` | benchmarks/reference_quality.py:22-28 | token recall times the reference length is the size of some multiset of tokens that both answers contain |
| `ReferenceQuality.RecallIsUpperBound` | benchmarks/reference_quality.py:22-28 | no multiset of tokens that both answers contain is larger than that |
| `ReferenceQuality.RecallExtremes` | benchmarks/reference_quality.py:22-28 | recall lies in the unit interval, is one exactly when the prediction contains the whole reference with multiplicity, and zero exactly when no token is shared |
| `ReferenceQuality.TokenRecall` | benchmarks/reference_quality.py:22-25 | fails exactly for an empty reference |
| `ReferenceQuality.RecallOrder` | benchmarks/reference_quality.py:22-28 | ROUGE-L recall is at most token recall, which is at most one |
| `TokenEdges.CommonPrefixLength` | cacheselect/reuse_opportunity.py:94-100 | the loop returns the shared prefix |
| `TokenEdges.CommonSuffixLength` | cacheselect/reuse_opportunity.py:103-113 | the loop returns the shared suffix in the room that the prefix leaves |
| `TokenEdges.PrefixIsLongest` | cacheselect/reuse_opportunity.py:94-100 | every agreeing prefix is part of the shared one |
| `TokenEdges.EdgesAreLargest` | cacheselect/block_features.py:23-40 | no other prefix and suffix that do not overlap remove more tokens |
| `ReuseOpportunity.ContentOccurrences` | cacheselect/reuse_opportunity.py:150-159 | the dictionary maps every window to all its starts in order, and holds nothing else |
| `ReuseOpportunity.CandidateMeaning` | cacheselect/reuse_opportunity.py:213-228 | a block yields a candidate exactly when its tokens occur in the previous prompt, with all starts, the aligned ones, and whether it stayed in place |
| `ReuseOpportunity.CandidatesAreExact` | cacheselect/reuse_opportunity.py:203-228 | a candidate is listed exactly when its block is in range and yields it |
| `ReuseOpportunity.CandidatesIncrease` | cacheselect/reuse_opportunity.py:208-228 | candidates are listed once each, in block order |
| `ReuseOpportunity.IndexAgreesWithScan` | cacheselect/reuse_opportunity.py:199-228 | the listed blocks are exactly the full blocks at or past the rounded-up hit whose tokens a naive scan finds, each with all its starts |
| `ReuseOpportunity.CollectCandidates` | cacheselect/reuse_opportunity.py:199-228 | the loop over index look-ups returns those candidates |
| `ReuseOpportunity.SourcesPartition` | cacheselect/reuse_opportunity.py:250-256 | whole-source and repacking candidates add up to all candidates |
| `ReuseOpportunity.SourcesArePositions` | cacheselect/reuse_opportunity.py:250-256 | the three counts are the candidates with an aligned source, without one, and without a source in place |
| `ReuseOpportunity.CandidateTokensFit` | cacheselect/reuse_opportunity.py:230-236 | candidate tokens never exceed the natively recomputed ones |
| `ReuseOpportunity.RecomputedAreBlocks` | cacheselect/reuse_opportunity.py:203-236 | the recomputed full blocks are the full blocks of the prompt that start at or past the native hit |
| `ReuseOpportunity.PostEditMatchingTokens` | cacheselect/reuse_opportunity.py:138-147 | the loop counts the tokens of the reported spans past the shared prefix |
| `ReuseOpportunity.PostEditCountsPositions` | cacheselect/reuse_opportunity.py:138-147 | for ordered spans the total is the number of positions at or past the prefix that some span matches |
| `ReuseOpportunity.PostEditFits` | cacheselect/reuse_opportunity.py:138-147 | ordered spans without overlap match no more tokens than follow the prefix |
| `ReuseOpportunity.AnalyzeReuseOpportunity` | cacheselect/reuse_opportunity.py:162-264 | rejects exactly the bad arguments; otherwise reports edges, spans, candidates and balancing counts, with a share in the unit interval |
| `ReuseOpportunity.EstimatedHitIsAccepted` | benchmarks/mtrag_coverage.py:49-59 | the hit estimated from the edit start is never rejected |
| `ReuseOpportunity.SuffixBlocksAreCandidates` | cacheselect/reuse_opportunity.py:203-228 | every full block inside the common suffix is a candidate, with a whole source block whenever the length change is a multiple of the block size |
| `BlockFeatures.LocateChangedTokenRegion` | cacheselect/block_features.py:44-56 | the region lies between shared prefix and shared suffix of both prompts |
| `BlockFeatures.RegionReconstructs` | cacheselect/block_features.py:44-56 | both prompts are one prefix and one suffix around their own changed tokens |
| `BlockFeatures.RegionIsSmallest` | cacheselect/block_features.py:32-56 | no other shared prefix and suffix leave fewer changed tokens |
| `BlockFeatures.EditMultisetsAreGlobal` | cacheselect/block_features.py:171-209 | tokens introduced and removed inside the envelope are those of the whole prompts |
| `BlockFeatures.ChangedBlocksHoldChanges` | cacheselect/block_features.py:87-93 | the bounds enclose exactly the blocks that hold a changed token |
| `BlockFeatures.EmptyEditBlock` | cacheselect/block_features.py:87-93 | an edit that inserts nothing names the one block that holds its position |
| `BlockFeatures.OffsetIsNearest` | cacheselect/block_features.py:97-104 | the offset is the signed distance to the nearest changed block |
| `BlockFeatures.CandidatesFollowTheEdit` | benchmarks/mtrag_coverage.py:49-59 | with the estimated hit no candidate has a negative offset |
| `BlockFeatures.NearestStart` | cacheselect/block_features.py:108-112 | the chosen occurrence is one of the starts and none is closer |
| `BlockFeatures.OverlapRatioMeaning` | cacheselect/block_features.py:179-185 | the ratio scales the source to the size of its multiset intersection with the block; it lies in the unit interval, is one exactly for a non-empty contained source and zero exactly when nothing is shared |
| `BlockFeatures.JaccardMeaning` | cacheselect/block_features.py:189-193 | the similarity scales the union to the intersection, is one for two empty sets, lies in the unit interval, is symmetric, and is one exactly for equal sets |
| `BlockFeatures.ExtractBlockFeatures` | cacheselect/block_features.py:197-233 | fails exactly when the token counts differ from those of the opportunity; otherwise one row per candidate, in order, against the edit of the whole prompts |
| `BlockFeatures.AnalysisIsSourced` | cacheselect/block_features.py:197-204 | the result of every analysis meets what the extraction needs, and its candidates are full blocks |
| `BlockFeatures.OffsetLeadsToChange` | cacheselect/block_features.py:126-152 | for a non-empty edit, the block that the offset of a row leads to holds a changed token |
| `BlockFeatures.DistanceIsLeast` | cacheselect/block_features.py:126-152 | no changed token lies in a block nearer than the reported distance |
| `BlockFeatures.SourceIsNearest` | cacheselect/block_features.py:107-155 | the source of a row is an occurrence of the block in the previous prompt, and no occurrence is nearer, nor as near and earlier |
| `BlockFeatures.OverlapsAreGlobal` | cacheselect/block_features.py:205-231 | each overlap of a row scales its source to the intersection with the block's tokens, zero for an empty source; the sources are the changed tokens and the tokens that the whole prompts introduce and remove |
| `BlockFeatures.SimilarityIsGlobal` | cacheselect/block_features.py:205-231 | the similarity of a row scales all tokens used by the changed region or the block to those used by both |
| `BlockFeatures.RowCounts` | cacheselect/block_features.py:126-141 | the changed counts of a row are the lengths of the two prompts less their shared edges |
| `BlockFeatures.RowFlags` | cacheselect/block_features.py:126-160 | a row is at the same position exactly when its block occurs there in the previous prompt, and requires repacking exactly when no occurrence lies on a block boundary |
| `ContextFeatures.MatchBeforeMeaning` | cacheselect/context_features.py:56-71 | a stretch before the two positions agrees exactly when it is no longer than the match |
| `ContextFeatures.MatchAfterMeaning` | cacheselect/context_features.py:106-119 | likewise after them |
| `ContextFeatures.RunBeforeIsFloor` | cacheselect/context_features.py:90-104 | a preceding block run is the token-level match divided by the block size, rounded down |
| `ContextFeatures.RunAfterIsFloor` | cacheselect/context_features.py:106-119 | and so is a following run |
| `ContextFeatures.PrecedingMatchTokens` | cacheselect/context_features.py:56-71 | the loop returns the longest match before the two positions |
| `ContextFeatures.MatchingBlockRun` | cacheselect/context_features.py:82-120 | both loops return the whole blocks of the matches before and after |
| `ContextFeatures.CountedEdits` | cacheselect/context_features.py:75-138 | for ordered edit spans the edits before a block are the first ones, with removed tokens inside the previous prompt and inserted ones before the block |
| `ContextFeatures.EditsBeforeCount` | cacheselect/context_features.py:75-139 | the edits before a block are those that start before it or delete right at its start |
| `ContextFeatures.InsertedArePositions` | cacheselect/context_features.py:171-174 | inserted tokens before a block are the inserted positions before its start |
| `ContextFeatures.RemovedArePositions` | cacheselect/context_features.py:168-170 | removed tokens before a block are the positions of the previous prompt that those edits removed |
| `ContextFeatures.ContextOf` | cacheselect/context_features.py:137-183 | match and run are the maxima over their occurrence sets, the match covers the preceding run although the sets differ, and the edit counts are those of the edits before the block |
| `ContextFeatures.ExtractContextFeatures` | cacheselect/context_features.py:124-184 | fails exactly when the token counts differ from those of the opportunity; otherwise one such row per candidate |
| `ContextFeatures.AnalysisIsRooted` | cacheselect/context_features.py:124-139 | the result of every analysis meets what the extraction needs |
| `ContextFeatures.MatchCoversRun` | cacheselect/context_features.py:140-163 | the best match is at least block size times the preceding part of the best run |
| `RequestLedger.ValidateLedger` | observability/request_recorder.py:223-290 | accepts exactly the ledgers whose events are well formed, unique and paired, and reports their counts and open requests |
| `RequestLedger.AcceptsMeaning` | observability/request_recorder.py:223-290 | accepted are exactly the ledgers of well-formed lines without two starts or two ends of a request and without an end of a request that has no start |
| `RequestLedger.SummaryMeaning` | observability/request_recorder.py:223-290 | the summary counts the lines of each kind; incomplete are the requests with a start line and no end line |
| `RequestLedger.LedgerBalances` | observability/request_recorder.py:277-290 | started requests are the completed, the failed and the incomplete ones |
| `RequestLedger.VerdictIgnoresOrder` | observability/request_recorder.py:233-290 | verdict, counts and open requests do not depend on the order of lines |
| `RequestLedger.CallKeepsConsistency` | observability/request_recorder.py:89-205 | every call on any handle keeps the ledger and the handles in step |
| `RequestLedger.EveryRunValidates` | observability/request_recorder.py:89-290 | after any interleaving of calls every prefix of the ledger validates and the incomplete requests are exactly the unfinished handles |
| `RequestLedger.EveryValidLedgerIsARun` | observability/request_recorder.py:89-290 | conversely, a ledger all of whose prefixes validate is the ledger of some run |
| `RequestLedger.LedgerFile.Append` | observability/request_recorder.py:126-141 | one line is added at the end |
| `RequestLedger.RequestRecorder.StartRequest` | observability/request_recorder.py:89-124 | a call is exactly one start step of the recorded world, with a fresh unfinished handle |
| `RequestLedger.PendingRequest.FinishRequest` | observability/request_recorder.py:153-205 | fails exactly on a finished handle, without writing; otherwise it is one finish step |
| `LedgerConsolidation.TrimInterrupted` | benchmarks/consolidate_mtrag_counterfactual.py:170-187 | the copy loop returns everything before the first surplus discovery, and fails exactly when there are too few |
| `LedgerConsolidation.TrimMeaning` | benchmarks/consolidate_mtrag_counterfactual.py:170-187 | the copied prefix has at most the given number of discovery starts and ends with the ledger or right before one too many |
| `LedgerConsolidation.TrimmingIsSafe` | benchmarks/consolidate_mtrag_counterfactual.py:170-187 | if no request starts while another is open, the trimmed ledger is complete, without failures, and has exactly the completed discoveries |
| `LedgerConsolidation.CutIsSuccessfulIff` | benchmarks/consolidate_mtrag_counterfactual.py:170-187 | a cut of any successful ledger is successful if and only if no request straddles it |
| `LedgerConsolidation.InterleavedTrimIsIncomplete` | benchmarks/consolidate_mtrag_counterfactual.py:170-187 | two overlapping requests after which the trimmed ledger is left open |
| `LedgerConsolidation.CopyCompletedLedger` | benchmarks/consolidate_mtrag_counterfactual.py:157-187 | a run is copied whole or trimmed, exactly when its ledger is successful and has enough discoveries |
| `LedgerConsolidation.ConcatIsSuccessfulIff` | benchmarks/consolidate_mtrag_counterfactual.py:312-328 | two successful ledgers concatenate to a successful one if and only if they share no request |
| `LedgerConsolidation.MergeIsSuccessfulIff` | benchmarks/consolidate_mtrag_counterfactual.py:312-328 | any number of them merge successfully if and only if no two share a request |
| `LedgerConsolidation.MergeLedgers` | benchmarks/consolidate_mtrag_counterfactual.py:312-328 | succeeds exactly when every run passes its checks and the merged ledger is successful, and then returns the copies in order |
| `LedgerConsolidation.SuccessfulMeaning` | benchmarks/consolidate_mtrag_counterfactual.py:318-328 | fully successful is a well-formed paired ledger without failures in which every start has an end |
| `LedgerConsolidation.MergedAt` | benchmarks/consolidate_mtrag_counterfactual.py:312-328 | the merged ledger holds the lines of every copied run, in the order of the runs |
| `LedgerConsolidation.CopyIsSuccessfulIff` | benchmarks/consolidate_mtrag_counterfactual.py:157-187 | the copy of a checked run is successful if and only if the run is complete or no request straddles its cut |
| `LedgerConsolidation.SequentialIsUsable` | benchmarks/consolidate_mtrag_counterfactual.py:157-187 | that holds of every run whose requests do not overlap |
| `LedgerConsolidation.UsableRunsMerge` | benchmarks/consolidate_mtrag_counterfactual.py:312-328 | such runs merge successfully if and only if no two share a request |
| `LedgerConsolidation.IndexCases` | benchmarks/consolidate_mtrag_counterfactual.py:115-153 | accepts a count if and only if the runs cover that many cases once, declare at most one plan size, which the count does not exceed, and it is the expected or else the declared count |
| `ReferenceExpansion.Choose` | benchmarks/mtrag_reference_expansion.py:119-125 | no available task precedes the chosen one by usage, then rank |
| `ReferenceExpansion.GroupCandidates` | benchmarks/mtrag_reference_expansion.py:65-107 | fails exactly on an empty identity field or a repeated task; otherwise holds the eligible tasks of each collection |
| `ReferenceExpansion.PickConserves` | benchmarks/mtrag_reference_expansion.py:126-128 | selected and available tasks together stay the tasks there were |
| `ReferenceExpansion.RoundIsBalanced` | benchmarks/mtrag_reference_expansion.py:113-131 | within a round, counts of two collections differ by more than one only if the smaller is exhausted |
| `ReferenceExpansion.PickIsFair` | benchmarks/mtrag_reference_expansion.py:119-128 | no picked conversation is used more than once beyond one of its collection that still has candidates |
| `ReferenceExpansion.SelectExpansion` | benchmarks/mtrag_reference_expansion.py:109-133 | terminates with exactly the requested tasks of the pool whenever there are that many: the no-progress error cannot occur; after any number of picks the selection is balanced over collections, fair to conversations if none spans collections, and continued with the least-used, lowest-ranked task left of the collection with the fewest picks, the first by name on a tie |
| `ReferenceExpansion.SelectReferenceExpansion` | benchmarks/mtrag_reference_expansion.py:38-133 | fails exactly on invalid bounds or identities, a duplicate task or too few eligible tasks; otherwise the requested number of distinct eligible, non-excluded tasks, balanced, fair and least-first among the eligible tasks after any number of picks |
| `ReferenceExpansion.SelectionIsUnique` | benchmarks/mtrag_reference_expansion.py:111-131 | with distinct ranks those rules leave no choice: any two selections of the same tasks agree as far as they go |
| `ReferenceExpansion.EligiblePositions` | benchmarks/mtrag_reference_expansion.py:85-107 | eligible are exactly the rows of the split that are not excluded, have testable blocks and keep both bounds, in order |
| `ReferenceExpansion.SortedCollections` | benchmarks/mtrag_reference_expansion.py:68-115 | all collections once, by name |
| `ReferenceExpansion.TakenIsPositions` | benchmarks/mtrag_reference_expansion.py:150-153 | the count of a collection is the number of selected tasks of it |
| `ReferenceExpansion.StateIsOrderly` | benchmarks/mtrag_reference_expansion.py:111-131 | balance and fairness of candidate lists and usage counter are those of the selected sequence against prior counts |
| `SelectorThresholds.CountsPartition` | benchmarks/train_logistic_selector.py:108-119 | the four counts split the examples, and two of them the repair labels |
| `SelectorThresholds.EvaluateCounts` | benchmarks/train_logistic_selector.py:106-111 | the four counts are the blocks with and without need for repair at or above the threshold and below it |
| `SelectorThresholds.RecallIsShare` | benchmarks/train_logistic_selector.py:113 | recall is the ratio of the blocks that need repair and are repaired to those that need it, zero without any |
| `SelectorThresholds.TallyMonotone` | benchmarks/train_logistic_selector.py:106-111 | raising the threshold only moves blocks from repair to reuse |
| `SelectorThresholds.ZeroMeets` | benchmarks/train_logistic_selector.py:147-158 | the zero threshold meets a target if and only if there is a repair label |
| `SelectorThresholds.SelectRepairThreshold` | benchmarks/train_logistic_selector.py:141-159 | exists exactly for a valid target and some block that needs repair; the repaired blocks among those are at least the target share of them, and for no larger threshold of any value |
| `SelectorThresholds.StricterReusesLess` | benchmarks/train_logistic_selector.py:191-206 | a stricter target has no larger threshold and reuses no other block |
| `SelectorThresholds.OperatingPoints` | benchmarks/train_logistic_selector.py:191-206 | one such threshold per target with its own counts, whose meaning `EvaluateCounts` states; a stricter target has no larger threshold and reuses no more |
| `SelectorThresholds.ReuseSetSize` | benchmarks/train_logistic_selector.py:109-111 | the reported reuse counts are the number of blocks below the threshold |
| `SelectorThresholds.BudgetIsReached` | benchmarks/train_logistic_selector.py:225-229 | the budget threshold reuses at least the required count |
| `SelectorThresholds.BudgetIsSmallest` | benchmarks/train_logistic_selector.py:225-229 | every threshold that reuses enough reuses at least those blocks |
| `SelectorThresholds.BudgetsAreNested` | benchmarks/train_logistic_selector.py:224-229 | larger budgets reuse supersets |
| `SelectorThresholds.BudgetCountMonotone` | benchmarks/train_logistic_selector.py:225 | a larger ratio asks for at least as many blocks |
| `SelectorThresholds.Argsort` | benchmarks/train_logistic_selector.py:222 | all positions once, by increasing score and, for equal scores, in their original order |
| `SelectorThresholds.ReuseBudgetPoints` | benchmarks/train_logistic_selector.py:210-237 | fails exactly without examples; otherwise every point reuses the smallest threshold-closed set of at least its budget, with its reused and unsafe counts, and a larger budget reuses a superset |
| `BreakEvenCalibration.Double` | benchmarks/hybrid_gdn_breakeven.py:111-121 | terminates with an upper bound that fits; for monotone tokenizers it fails exactly when the last power of two in the limit is too short |
| `BreakEvenCalibration.Bisect` | benchmarks/hybrid_gdn_breakeven.py:123-130 | ends on a count that fits for any tokenizer, and on the least one for monotone tokenizers |
| `BreakEvenCalibration.CheckPair` | benchmarks/hybrid_gdn_breakeven.py:132-160 | accepts exactly the pairs with N+1 full blocks, a differing first one, N identical following ones and a covering suffix |
| `BreakEvenCalibration.EditInFirstBlock` | benchmarks/hybrid_gdn_breakeven.py:141-144 | the edit lies in the first block exactly when the first blocks differ, so the second check never fires |
| `BreakEvenCalibration.SharedTokenEdges` | benchmarks/hybrid_gdn_breakeven.py:74-94 | returns the shared prefix and the shared suffix beside it |
| `BreakEvenCalibration.Calibrate` | benchmarks/hybrid_gdn_breakeven.py:98-160 | any returned pair has the geometry and reports its counts, shared prefix and shared suffix; for monotone tokenizers it uses the least filler count, and succeeds exactly when that one is within the limit and has the geometry |
| `BreakEvenCalibration.ReuseFractionIsProper` | benchmarks/run_hybrid_gdn_breakeven.py:122-128 | the reuse fraction of a calibrated pair lies strictly between zero and one |
| `BlindReview.PrepareReview` | benchmarks/prepare_mtrag_counterfactual_review.py:169-211 | one blinded row and one identity row per trial under the same ID, slots set by the coin of the trial |
| `BlindReview.KeyIgnoresCoin` | benchmarks/compact_mtrag_counterfactual_review.py:13-21 | the group key of a trial does not depend on its slots |
| `BlindReview.KeysAgreeIff` | benchmarks/compact_mtrag_counterfactual_review.py:13-21 | two rows share a group exactly when question, expected answer and independent answer agree and the two answers are the same in either order |
| `BlindReview.IdsArePositions` | benchmarks/compact_mtrag_counterfactual_review.py:24-60 | the IDs of a group are those of its rows, once each and in row order |
| `BlindReview.CompactReview` | benchmarks/compact_mtrag_counterfactual_review.py:24-60 | every key once with all its rows in order, and the occurrences add up to the rows |
| `BlindReview.ApplyReview` | benchmarks/compact_mtrag_counterfactual_review.py:73-92 | succeeds exactly for a finished, covering review with the right counts, and gives every row the verdict of the last compact row of its key, in its own slots |
| `BlindReview.UnblindReview` | benchmarks/unblind_mtrag_counterfactual_review.py:57-88 | succeeds exactly when every row has a verdict and a reason and the keys are distinct, as many as the rows, and include every row; each row is decided by its own key |
| `BlindReview.JoinCoversKeysIff` | benchmarks/unblind_mtrag_counterfactual_review.py:61-88 | an accepted join covers every key if and only if the rows are distinct |
| `BlindReview.RepeatHidesTrial` | benchmarks/unblind_mtrag_counterfactual_review.py:61-88 | two rows of one trial are accepted in place of two trials |
| `BlindReview.OutcomeIsContent` | benchmarks/unblind_mtrag_counterfactual_review.py:30-36 | with differing texts the decision is the content judgement: reuse exactly if equivalent or if the slot of the intervention's text in the sorted pair was judged better, abstain exactly if unclear |
| `BlindReview.OutcomeIgnoresCoinIff` | benchmarks/prepare_mtrag_counterfactual_review.py:185-190 | the coin is irrelevant if and only if the texts differ or the verdict is not one-sided |
| `BlindReview.EqualTextsFollowTheCoin` | benchmarks/prepare_mtrag_counterfactual_review.py:185-190 | a trial of equal texts whose decision is the coin |
| `BlindReview.ReviewPipeline` | benchmarks/compact_mtrag_counterfactual_review.py:24-92 | blind, compact, judge, apply and unblind fail exactly when the group of some trial has no verdict or reason; otherwise every trial with differing texts gets the content decision of its group |
| `CounterfactualTrials.EvidenceIsolatesOneBlock` | benchmarks/counterfactual_labels.py:64-153 | evidence is valid exactly when the metrics report the counterfactual selector, the intervention's block size, transition and block, its sorted candidates with their multiplicities, exactly one resident source for the block, all six token, block and row counts, eligibility for the reason `eligible`, both built flags, and an executed forward |
| `CounterfactualTrials.FailureIsFirst` | benchmarks/counterfactual_labels.py:103-148 | the reported fault is the first check of the list that does not pass |
| `CounterfactualTrials.EvidenceBalances` | benchmarks/counterfactual_labels.py:101-148 | valid evidence reuses one of the candidates exactly once, and repaired plus skipped tokens are the candidate and the copied tokens |
| `CounterfactualTrials.LabelNeverRaises` | benchmarks/counterfactual_labels.py:247-258 | once all observations are in, labelling cannot fail |
| `CounterfactualTrials.TrialOutcome` | benchmarks/counterfactual_trial.py:444-482 | a trial is labelled exactly when the reference passed, the metrics prove the execution, the answer is complete and, in strict mode, exact; the label is reuse exactly for a non-empty passing answer; a drifted reference is recorded exactly when it differs from the required output |
| `CounterfactualTrials.TrialIsExplained` | benchmarks/counterfactual_trial.py:444-482 | the recorded reason is truncation, a failed reference, the first fault, a need for blind review, lost or kept quality, each exactly in its case, and the recorded match is that of the texts |
| `CounterfactualTrials.BuildInterventions` | benchmarks/counterfactual_trial.py:80-129 | fails exactly for an invalid discovery or selection; otherwise one intervention per selected block, each with all candidates |
| `CounterfactualTrials.RunTrials` | benchmarks/counterfactual_trial.py:486-565 | a batch exists exactly for a valid plan without failing trials and a fresh final recompute; it holds one sound trial per selected block, and is stable exactly when that recompute repeats the reference |
| `TrainingRows.ExtractTrialFeature` | benchmarks/counterfactual_dataset.py:61-103 | a unique feature row exists exactly for a readable trial of a full block past the hit whose tokens the donor holds, and it is the feature row of that block |
| `TrainingRows.TestedRow` | benchmarks/counterfactual_dataset.py:82-103 | the tested features are the row of the block's candidate, which lists all occurrences of its tokens, against the edit from donor to intervention |
| `TrainingRows.SaveTrainingRows` | benchmarks/counterfactual_dataset.py:106-161 | succeeds exactly for a savable batch, with one row per kept trial in order, carrying its label and the features of the block it tested |
| `TrainingRows.KeptPositions` | benchmarks/counterfactual_dataset.py:122-134 | kept are exactly the labelled trials of a stable batch, in order |
| `TrainingRows.RecordedIsSavableIff` | benchmarks/counterfactual_dataset.py:112-140 | for a recorded batch only an empty selection or a labelled block without features can make saving fail |
| `TrainingRows.TrialsPartition` | benchmarks/counterfactual_workflow.py:166-182 | every trial is a row, invalid or abstained, and every row repairs or reuses |
| `TrainingRows.SummaryBalances` | benchmarks/counterfactual_workflow.py:132-186 | the summary of a recorded batch balances and agrees with its rows; an unstable reference leaves no rows and every valid trial abstains |
| `TrainingRows.SummaryCountsEvidence` | benchmarks/counterfactual_workflow.py:165-181 | invalid counts the trials without a valid reference and execution, abstained the valid ones without a usable decision, and drifted those whose reference differs from the required output |
| `TrainingRows.SummaryCountsLabels` | benchmarks/counterfactual_workflow.py:132-136 | repair and reuse count the labelled trials of a stable batch by their decision |
| `TrainingRows.RunWorkflow` | benchmarks/counterfactual_workflow.py:44-186 | succeeds exactly for an accepted discovery whose trials complete; it reports exactly the trials that ran, with the rows and features of the kept ones and a summary of all, which balances, agrees with rows of distinct blocks, and shows no drift |
| `CaseConsolidation.Consolidate` | benchmarks/consolidate_mtrag_counterfactual.py:191-287 | succeeds exactly when every case passes its checks and no block of a transition is labelled twice; the merged table holds the rows of the finished cases in order, and the totals balance and count its rows and the rows of either decision |
| `CaseConsolidation.MergedRowHasCase` | benchmarks/consolidate_mtrag_counterfactual.py:250-267 | every merged row is a row of a finished case, with the index, collection, conversation and task of that case |
| `CaseConsolidation.TotalSums` | benchmarks/consolidate_mtrag_counterfactual.py:206-220 | the totals of trials, rows, repair and reuse labels are the sums of that one count over all cases |
| `CaseConsolidation.UnlabelledSums` | benchmarks/consolidate_mtrag_counterfactual.py:206-220 | and so are those of invalid, abstained and drifted trials |
| `CaseConsolidation.MergeRows` | benchmarks/consolidate_mtrag_counterfactual.py:250-267 | a case is merged exactly when its rows are its own and none of its keys was seen |
| `CaseConsolidation.RowsAreCounted` | benchmarks/consolidate_mtrag_counterfactual.py:220-248 | the totals count exactly the merged rows |
| `CaseConsolidation.TotalBalances` | benchmarks/consolidate_mtrag_counterfactual.py:210-220 | totals of balanced cases balance |
| `CaseConsolidation.SkippedAreListed` | benchmarks/consolidate_mtrag_counterfactual.py:228-233 | the report lists exactly the skipped case indices |
| `CaseConsolidation.FirstSeparatorIsFirst` | benchmarks/consolidate_mtrag_counterfactual.py:226-264 | the conversation ends at the first separator of the task ID |
| `CaseConsolidation.ConversationSplits` | benchmarks/consolidate_mtrag_counterfactual.py:226-264 | a task has a conversation exactly when the separator occurs in it, and the conversation is everything before the first one |
| `CaseConsolidation.CompletedCasesConsolidate` | benchmarks/consolidate_mtrag_counterfactual.py:210-258 | whatever cases the workflow completed or skipped, they pass every check and merge without duplicates as long as no two share trace and transition |

## Left out

- HTTP clients, profiler control, files, CSV, plots, argument parsing and per-field JSON type checks: no provable core.
- The vLLM scheduler and block pool: not part of this model.
- `difflib` results: matching spans and edit spans are parameters, with their order as a hypothesis where it is used; word similarity is not modelled.
- scikit-learn training, ROC, bootstrap intervals, and the accuracy, precision and F1 that the selector derives from its four counts: library code or single expressions.
- Floating-point rounding, including the default scale `1/sqrt(width)`, and `estimate_gdn_delta_cache`: one product of sizes.
- Answer normalization (case folding, punctuation, articles): the metrics start from the normalized token sequences.
- SHA-256 ranks and split buckets: rank, coin and split are arbitrary functions or fields.
- Validation of single coverage fields, and the artifact and source hashes that a frozen plan is checked against.
- Thread locks, torn writes and fsync of the recorder: one append is one step; the incomplete requests are a set, not a sorted tuple.
- Verdict counts, source hashes and rubric text of the review files.
- `extract_counterfactual_candidate_discovery`: a discovery is a parameter that the batch validates; response quality comparison and freshness checks are inputs of a trial.
- Feature fields that copy an input or divide by a constant: token counts, block size, position ratio, share; the source displacement is represented by its start.
- RequestLedger.RequestRecorder.StartRequest: takes the fresh ID as a parameter, since UUID generation is not modelled.
- SelectorThresholds.ReuseBudgetPoints: budgets are ratios of naturals, so `ceil(target * n)` is exact.
- LedgerConsolidation.IndexCases: keeps the set of case indices, not the summaries stored under them.
- BlockFeatures.ExtractBlockFeatures: takes an opportunity of any prompts, as long as its block size is positive and every candidate has an occurrence.
