# A verified model of Muser's export, evaluation and release tooling

Muser serves a language model with a DFlash drafter on Apple's accelerators. Its Python tooling cuts
the drafter into Core ML programs, keeps a persistent K/V state inside them, decides from measurements
whether a release is good enough, and guards the machine and the evidence while it does so. This
project models the parts of that tooling whose correctness is not visible from one function, and
proves their laws for all inputs, all sizes and all runs. `dafny verify dfyconfig.toml` checks it.

| file | models |
|---|---|
| `Wrappers.dfy`, `Arithmetic.dfy`, `Tensors.dfy` | shared value types; products and quotients; exact matrices, heads, slices and joins |
| `AttentionSpec.dfy` | the meaning of one stateful attention prediction, and of a run, with no configuration |
| `StatefulAttention.dfy` | the exported module as a class: grouped buffers updated in place, chunked writes and queries, split or concatenated join |
| `AttentionLaws.dfy` | which logits reach the softmax, which rows they weigh and how a mask blends the state, said without the functions of the specification |
| `AttentionRuns.dfy` | configuration parity over runs, sliced serving, the last-writer-wins state |
| `DFlashReplay.dfy` | the runtime-bundle layer: blended targets, emitted K/V bundles, replay |
| `ShardPlan.dfy`, `ShardMeaning.dfy`, `TailMeaning.dfy`, `TailLaws.dfy`, `ShardRun.dfy` | the shard planner, what running its shards computes, what a layer tail is, and the whole path from a configuration to its outputs |
| `Acceptance.dfy`, `Percentiles.dfy` | the threshold search and the percentile figures of the composite verifier |
| `Lease.dfy` | the accelerator lease as a machine of steps over open file descriptions |
| `Campaign.dfy`, `Baseline.dfy`, `ReleaseCampaign.dfy` | the resumable ledger under crashes, the evaluator of a finished packet, and what interruptions and failures do to the verdict |
| `Liveness.dfy` | the MIL tensor-pressure sweep and every allocator |
| `Wilson.dfy` | the disagreement interval and the top-token gate, for every positive quantile |
| `Publication.dfy` | hard-link receipt publication under interleaving, failures and power loss |
| `TreeFraming.dfy` | the byte stream hashed for a package tree |
| `Nvfp4.dfy` | NVFP4 decoding and where it can round |

Numbers are exact: tensors and statistics are over `real`, softmax, normalisation and the SiLU gate are
arbitrary functions, and a square root is any non-negative number whose square is the radicand. Child
processes, crashes, scheduling and disk write-back are arbitrary choices the theorems quantify over.

Where a promised law does not hold for every input, the model keeps the code as it is and states exactly
when the law holds: `AttentionRuns.OverwriteExactly` (two writers of one slot are not an overwrite),
`Acceptance.RequiredAlpha` (no candidates), `Campaign.NoDuplicatesIffDistinct` (a repeated plan digest
runs again), `Campaign.SuccessReadable` (a resume after a record without its newline can end in success
with an unreadable ledger; `Campaign.SuccessCanBeUnreadable` is such a history), `Baseline.Evaluate` (an
absent fingerprint or a zero mean raises; `ReleaseCampaign.FrozenPackets` has a packet of each kind) and
`Percentiles.TailThroughput` (strict inequality between two different samples).

## Model

| member | source | states |
|---|---|---|
| `AttentionSpec.RunDependsOnWrites` | scripts/export_dflash_stateful_attention_only_coreml.py:207-210 | over a run the state depends only on targets and write masks, never on queries, noise rows or attention masks |
| `Tensors.DotLinear` | scripts/export_dflash_stateful_attention_only_coreml.py:181-182 | contraction is linear in its first factor, which with commutation and the one-hot case determines it |
| `AttentionLaws.OutputLaw` | scripts/export_dflash_stateful_attention_only_coreml.py:241-303 | entry (h, i, d) of a prediction weighs the state rows and then the noise rows of KV head h / groups by the softmax of the scaled query-key products plus row i of the mask |
| `AttentionLaws.ZeroQueryOutput` | scripts/export_dflash_stateful_attention_only_coreml.py:264-267 | for any softmax, a zero query row or a zero scale leaves the values weighed by the mask alone |
| `AttentionLaws.OneEntryOutput` | scripts/export_dflash_stateful_attention_only_coreml.py:241-267 | without a mask and with one entry everywhere the logit is the scaled product of query and key |
| `AttentionLaws.WriteLaw` | scripts/export_dflash_stateful_attention_only_coreml.py:164-210 | for every real mask, a written entry is the held one times one less the mask row's sum, plus the masked targets |
| `StatefulAttention.Written` | scripts/export_dflash_stateful_attention_only_coreml.py:180-206 | the write contraction summed in chunks of any dividing size equals the whole contraction |
| `StatefulAttention.UpdatedState` | scripts/export_dflash_stateful_attention_only_coreml.py:164-165 | keep-and-add in tensor form is, entry by entry, the masked write of every head |
| `StatefulAttention.WriteChunkExtends` | scripts/export_dflash_stateful_attention_only_coreml.py:189-206 | adding one chunk's product to the product over the columns before it gives the product over the longer prefix |
| `StatefulAttention.ConcatHeadCorrect` | scripts/export_dflash_stateful_attention_only_coreml.py:241-280 | the concatenated join computes row-wise attention over state rows followed by noise rows |
| `StatefulAttention.SplitHeadCorrect` | scripts/export_dflash_stateful_attention_only_coreml.py:248-303 | the split join, which never concatenates K or V, computes the same attention for any softmax |
| `StatefulAttention.AttendKvHead` | scripts/export_dflash_stateful_attention_only_coreml.py:233-240 | the block of query heads served by one KV head is its slice of the whole attention, for either join |
| `StatefulAttention.AttendChunk` | scripts/export_dflash_stateful_attention_only_coreml.py:231-304 | the per-head parts of one query chunk concatenate to the attention of the whole group |
| `StatefulAttention.AttendGroup` | scripts/export_dflash_stateful_attention_only_coreml.py:216-305 | query chunks of any dividing size concatenate to the unchunked attention of the group |
| `StatefulAttention.MeaningOfSlice` | scripts/export_dflash_stateful_attention_only_coreml.py:216-218 | attending to a slice of the query rows is slicing the attention |
| `StatefulAttention.GroupIsSlice` | scripts/export_dflash_stateful_attention_only_coreml.py:168-176 | a state group computes exactly its query heads of the ungrouped attention, across the `h / groups` head map |
| `StatefulAttention.ComputeGroup` | scripts/export_dflash_stateful_attention_only_coreml.py:167-305 | from its own two buffers a group produces its slices of the reference state and of the reference output |
| `StatefulAttention.Module.constructor` | scripts/export_dflash_stateful_attention_only_coreml.py:130-152 | every group buffer starts at zero with the group's shape |
| `StatefulAttention.Module.Forward` | scripts/export_dflash_stateful_attention_only_coreml.py:154-306 | for every accepted configuration the joined buffers become the reference next state and the result is the reference attention over it |
| `AttentionRuns.Predict` | scripts/export_dflash_stateful_attention_only_coreml.py:154-306 | a whole run of predictions gives the reference outputs and the reference final state |
| `AttentionRuns.Parity` | scripts/export_dflash_stateful_attention_only_coreml.py:421-484 | any two configurations of one shape agree on every output and on the final joined state, for every run |
| `AttentionRuns.ZeroMaskKeeps` | scripts/export_dflash_stateful_attention_only_coreml.py:519-531 | a prediction with a zero write mask leaves the whole state unchanged |
| `AttentionRuns.OutputOfSlice` | scripts/export_dflash_stateful_attention_only_coreml.py:519-533 | the output of a sliced prediction is that slice of the full-width output over the same state |
| `AttentionRuns.ServeSliced` | scripts/export_dflash_stateful_attention_only_coreml.py:484-559 | serving a block in query slices, writing on the first only, gives the output and state of one full-width prediction |
| `AttentionRuns.StepOverwrites` | scripts/export_dflash_stateful_attention_only_coreml.py:164-165 | under a 0/1 mask with at most one writer per slot, each slot becomes the written target row or stays |
| `AttentionRuns.LastWrite` | scripts/export_dflash_stateful_attention_only_coreml.py:164-165 | the prediction it returns has a 1 in the slot's mask row and no later prediction writes the slot; none is returned exactly when no prediction writes it |
| `AttentionRuns.LastWriterWins` | scripts/export_dflash_stateful_attention_only_coreml.py:164-210 | over every such run each slot holds the row last written to it, or its initial row |
| `AttentionRuns.OverwriteExactly` | scripts/export_dflash_stateful_attention_only_coreml.py:164-165 | the arithmetic update is a plain overwrite, or no write, for all values if and only if the mask row is zero or one-hot |
| `DFlashReplay.AsHeadsOfChannels` | scripts/export_dflash_stateful_attention_coreml.py:306-309 | the headed reading of an emitted bundle is the tensor that was emitted |
| `DFlashReplay.ChannelsOfAsHeads` | scripts/export_dflash_stateful_attention_coreml.py:519-525 | every channel bundle is the emission of its own headed reading, so the two layouts are inverse |
| `DFlashReplay.AsHeadsEntry` | scripts/export_dflash_stateful_attention_coreml.py:306-309 | channel h·dim + d of token t is entry d of head h |
| `DFlashReplay.BlendLaw` | scripts/export_dflash_stateful_attention_coreml.py:382-383 | for every mode the blended target is the live one moved by the mode towards the replayed one |
| `DFlashReplay.EffectiveLaw` | scripts/export_dflash_stateful_attention_coreml.py:377-383 | mode zero leaves the live inputs untouched, mode one replaces exactly the two targets by the bundles |
| `DFlashReplay.ReplayModeSelects` | scripts/export_dflash_stateful_attention_coreml.py:377-383 | mode one selects the replayed bundle whatever was projected live, mode zero the live projection |
| `DFlashReplay.EmitCuts` | scripts/export_dflash_stateful_attention_coreml.py:515-526 | the K and V bundles are recovered from the emitted channels by the two width offsets |
| `DFlashReplay.ReplayRecovers` | scripts/export_dflash_stateful_attention_coreml.py:377-383 | replaying an emission reproduces exactly the targets that produced it |
| `DFlashReplay.ReplayRebuildsState` | scripts/export_dflash_stateful_attention_coreml.py:377-427 | replaying the bundles of a whole run rebuilds the same state after every prediction, with arbitrary other inputs |
| `DFlashReplay.Forward` | scripts/export_dflash_stateful_attention_coreml.py:377-526 | from the headed tensors on, one runtime-bundle prediction writes the blended targets and emits the attention over the new state with both bundles |
| `DFlashReplay.ReplayBeside` | scripts/export_dflash_stateful_attention_coreml.py:377-427 | a replaying layer of any configuration stays in the same state as the live layer it follows |
| `ShardPlan.ProjectionGeometry` | scripts/export_dflash_coreml.py:155-178 | only five-layer drafters are accepted, and every layer of one passes both planners' shape checks |
| `ShardPlan.FcFragments` | scripts/export_dflash_coreml.py:274-302 | the FC slices tile the input axis without gap or overlap, one whole slice or slices of at most the output width; a zero stride is refused |
| `ShardPlan.QkvFragmentOf` | scripts/export_dflash_coreml.py:304-341 | Q, K and V are stacked without gap in one program exactly when they share an input that fits the channel limit |
| `ShardPlan.FusedFragments` | scripts/export_dflash_coreml.py:227-342 | a plan exists exactly when every layer fits, and it has the FC tiling and one fused fragment for each layer |
| `ShardPlan.LayerTail` | scripts/export_dflash_coreml.py:356-407 | one or two shards tile the intermediate axis, each within the byte limit, exactly for accepted layers |
| `ShardPlan.FusedTailFragments` | scripts/export_dflash_coreml.py:345-408 | the tail plan exists exactly when every layer is accepted, and every layer of it is tiled within the byte limit |
| `ShardMeaning.PaddingInvisible` | scripts/export_dflash_coreml.py:419-446 | padding the convolution to the channel floor and slicing back computes the unpadded product |
| `ShardMeaning.FragmentWeight` | scripts/export_dflash_coreml.py:904-918 | the slicing loop returns the stacked weight exactly when the components leave no gap and end at the fragment's width |
| `ShardMeaning.FcPrefixSum` | crates/muser-engine/src/dflash_ane.rs:671-720 | after any prefix of the FC slices the accumulated output is the product over the input columns covered so far |
| `ShardMeaning.FcRecovered` | scripts/export_dflash_coreml.py:268-302 | running any exact FC tiling and adding the scattered parts gives W·x |
| `ShardMeaning.QkvRecovered` | scripts/export_dflash_coreml.py:303-341 | the fused fragment gives W·x for each of Q, K and V after scattering by offset |
| `TailMeaning.FfnSliceEntry` | scripts/export_dflash_coreml.py:466-499 | a continuation contracts exactly its columns of the whole gated activation |
| `TailMeaning.TailPrefix` | crates/muser-engine/src/dflash_ane.rs:973-1109 | after any prefix of the tail shards the running result covers exactly the intermediate channels of that prefix |
| `TailMeaning.TailRecovered` | scripts/export_dflash_coreml.py:1012-1034 | for every planned layer the head's base plus every continuation is post-attention plus the unsplit gated FFN |
| `TailMeaning.TargetSplitRecovered` | scripts/export_muse_target_coreml.py:121-191 | the target head's partial plus the tail program on its normed output is the unsplit FFN, for every cut |
| `TailMeaning.CutRecovered` | scripts/export_muse_target_coreml.py:250-264 | any cut of gate and up rows and down columns splits the FFN into two summands |
| `TailLaws.FfnLaw` | scripts/export_dflash_coreml.py:484-499 | an FFN output contracts the down row with the activated gate product times the up product |
| `TailLaws.ConstantActivation` | scripts/export_dflash_coreml.py:493-495 | an activation of one leaves the up and down projections, whatever the gate |
| `TailLaws.UnitUp` | scripts/export_dflash_coreml.py:493-495 | an up projection of ones leaves the down projection of the activated gate |
| `TailLaws.TailLaw` | scripts/export_dflash_coreml.py:546-585 | the tail is the residual behind the attention channels plus the projected attention, plus the FFN of its normalisation |
| `TailLaws.TailGating` | scripts/export_dflash_coreml.py:577-579 | both gating laws, of the whole DFlash tail |
| `TailLaws.TargetInputLaw` | scripts/export_muse_target_coreml.py:121-154 | the target normalises the projected attention before adding the residual |
| `TailLaws.TargetGating` | scripts/export_muse_target_coreml.py:121-191 | both gating laws, of the target head's partial plus its continuation |
| `ShardRun.RunShards` | crates/muser-engine/src/dflash_ane.rs:592-720 | the runtime loops over shards and components compute the accumulated scatter of the shard programs |
| `ShardRun.RunTailShards` | crates/muser-engine/src/dflash_ane.rs:973-1109 | the runtime loop adds every continuation, run on the head's normed output, to the head's base |
| `ShardRun.Project` | scripts/export_dflash_coreml.py:155-342 | for every accepted configuration, planning, slicing and running gives W·x for FC and for each layer's Q, K and V; refused exactly for other than five layers, too wide a hidden size or a zero size |
| `ShardRun.RunTails` | scripts/export_dflash_coreml.py:345-408 | for every accepted configuration, planning and running the tails gives every layer's unsplit tail; refused exactly for other than five layers, a shard above the byte limit or a zero width |
| `Acceptance.ClosedForm` | scripts/evaluate_composite_verifier.py:31-34 | the closed form equals the finite geometric sum for every rate and candidate count |
| `Acceptance.CommitsMonotone` | scripts/evaluate_composite_verifier.py:31-34 | expected commits do not decrease in the rate on [0,1], and strictly increase from two candidates on |
| `Acceptance.RequiredAlpha` | scripts/evaluate_composite_verifier.py:37-50 | the bisection keeps f(low) < required <= f(high); the answer suffices, is within 2^-80 of the least sufficient rate, and is absent exactly when no rate suffices; with no candidate, exactly when it still suffices |
| `Percentiles.PermutationInvariant` | scripts/evaluate_composite_verifier.py:18-28 | a percentile depends only on the multiset of samples |
| `Percentiles.PercentileBoundedMonotone` | scripts/evaluate_composite_verifier.py:18-28 | percentiles lie between every lower and upper bound of the samples and do not decrease with the probability |
| `Percentiles.PercentileRefused` | scripts/evaluate_composite_verifier.py:18-20 | refused exactly for an empty sample or a probability outside [0, 1] |
| `Percentiles.PercentileAtRank` | scripts/evaluate_composite_verifier.py:21-25 | when p(n-1) is a rank the percentile is the sorted sample of that rank |
| `Percentiles.PercentileBetween` | scripts/evaluate_composite_verifier.py:21-28 | otherwise it mixes the samples of that rank and the next by the fraction |
| `Percentiles.MixLaw` | scripts/evaluate_composite_verifier.py:26-28 | the mix moves from the first sample by the fraction of the difference |
| `Percentiles.PercentileOfSorted` | scripts/evaluate_composite_verifier.py:18-28 | in a sorted sample the percentile at k/(n-1) is sample k |
| `Percentiles.ReciprocalConvex` | scripts/evaluate_composite_verifier.py:105 | interpolated throughput is at least the throughput of the interpolated wall, equal exactly when the walls are |
| `Percentiles.TailThroughput` | scripts/evaluate_composite_verifier.py:147-150 | the throughput percentile at q is never below the throughput at the wall percentile 1-q, and equal exactly when the interpolation lands on one sample or between equal ones |
| `Percentiles.ScaledPercentile` | scripts/evaluate_composite_verifier.py:100-102 | the percentile of the required commits is the requirement at the percentile wall |
| `Percentiles.ThresholdImpliesFullAccept` | scripts/evaluate_composite_verifier.py:102-162 | if any acceptance rate meets the 95th-percentile requirement, the 5th-percentile full-accept throughput reaches the baseline |
| `Percentiles.FullAcceptFlag` | scripts/evaluate_composite_verifier.py:161-162 | the strict flag is raised whenever the 95th-percentile requirement is below the candidate count, and only then when the wall interpolation is flat |
| `Lease.StepKeepsInv` | scripts/accelerator_safe.py:250-416 | every step of every process keeps: a claimant's description owns the lock, its descriptor stays open, a probe is private |
| `Lease.UnlockKeeps` | scripts/accelerator_safe.py:284-306 | unlocking a probe never takes the lock from a process relying on it |
| `Lease.ReleaseKeeps` | scripts/accelerator_safe.py:361-416 | any program may unlock a description that no wrapper relies on without harm to one that does |
| `Lease.DropKeeps` | scripts/accelerator_safe.py:414-416 | closing descriptors never takes the lock from a process relying on it |
| `Lease.Exclusion` | scripts/accelerator_safe.py:361-416 | in every interleaving all running children belong to one description and it owns the lock |
| `Lease.TakingOwns` | scripts/accelerator_safe.py:365-374 | after any interleaving an outermost wrapper holds the lease exactly when the lock was free or its own description's; otherwise it stops and the owner stays |
| `Lease.FreeLockRuns` | scripts/accelerator_safe.py:382-404 | on a free lock a wrapper goes on to run its child under the lease, handing its descriptor on exactly when it shares |
| `Lease.FirstRun` | scripts/accelerator_safe.py:361-404 | a first wrapper does reach a running child that owns the lock |
| `Lease.ExitReleases` | scripts/accelerator_safe.py:414-416 | a process that ends gives up its descriptors, and the lock exactly when no other process holds the owning description |
| `Lease.WrapperEnds` | scripts/accelerator_safe.py:396-416 | a wrapper whose child has ended is finished, and nothing else changes |
| `Lease.PlainLocking` | scripts/accelerator_safe.py:287-306 | any lock call succeeds exactly on a free lock or its own, and an unlock frees only its own |
| `Lease.AcceptanceOwns` | scripts/accelerator_safe.py:273-306 | after any interleaving the re-lock accepts exactly when the lock is free or the descriptor's own, and acceptance means ownership |
| `Lease.VerifyInheritedLease` | scripts/accelerator_safe.py:273-306 | undisturbed, exactly the lock-file descriptor whose description owns the lock is accepted, and ownership and descriptors are left as found |
| `Campaign.Ledger.ExecutePlan` | scripts/campaign.py:1902-1963 | the loop over the open ledger leaves the file and exit of the invocation specification |
| `Campaign.ReadAppend` | scripts/campaign.py:735-750 | an append that leaves the ledger readable adds exactly its record; on a clean file only a torn write makes it unreadable |
| `Campaign.TurnKeepsPrefix` | scripts/campaign.py:1918-1962 | one turn extends the passed prefix by at most its own entry, and by exactly that when the loop goes on |
| `Campaign.PassedIsPrefix` | scripts/campaign.py:1909-1963 | after any history of crashes, failures and resumes of a plan with distinct digests the passed records are, in order, a prefix of the plan, all of it after a success |
| `Campaign.NoDuplicatesIffDistinct` | scripts/campaign.py:1909-1923 | no history duplicates a passed digest if and only if the plan's digests are distinct |
| `Campaign.SuccessReadable` | scripts/campaign.py:735-750 | a successful invocation leaves a readable ledger if and only if it found a terminated last line or had nothing left to run |
| `Campaign.SuccessCanBeUnreadable` | scripts/campaign.py:735-750 | a crash before the first newline, then a resume: the invocation reports success and its ledger no longer reads |
| `Campaign.InvocationRecords` | scripts/campaign.py:1909-1963 | an invocation adds exactly the records of plan positions not passed before under its identity, in order, each with its own entry, verdict and evidence; on success all of them, and only passes |
| `Campaign.SessionsJustified` | scripts/campaign.py:1934-1961 | every record of a shared ledger carries the verdict and evidence of some position of some invocation |
| `Campaign.InvokeExits` | scripts/campaign.py:1949-1963 | unreadable exactly on a ledger that does not read, done exactly when every uncompleted entry passes, failed exactly when the first that does not pass fails |
| `Campaign.InvokeExtends` | scripts/campaign.py:1902-1963 | an invocation of any plan on any ledger keeps every readable record in place, or leaves nothing readable |
| `Campaign.SessionsExtend` | scripts/campaign.py:1902-1963 | whatever plans and identities were invoked, a readable ledger begins with the records it had after every earlier invocation |
| `Campaign.FailureStays` | scripts/campaign.py:1949-1952 | once an invocation exited as failed, every later readable ledger holds a failed record, whatever was invoked in between |
| `Baseline.CvCriterion` | scripts/evaluate_baseline.py:51-57 | the 3% test on the exact coefficient of variation is the root-free test the model uses |
| `Baseline.MeanLaw` | scripts/evaluate_baseline.py:51-52 | the mean times the count is the sum |
| `Baseline.VarianceLaw` | scripts/evaluate_baseline.py:55-57 | the variance times the count is the squared deviation from the mean |
| `Baseline.DeviationLaw` | scripts/evaluate_baseline.py:55-57 | that deviation is the sum of squares less the count times the squared mean |
| `Baseline.GroupRecords` | scripts/evaluate_baseline.py:187-198 | the record loop groups the passed records of expected keys in ledger order and names exactly the unexpected keys and the keys with a foreign identity |
| `Baseline.CheckRow` | scripts/evaluate_baseline.py:219-266 | one cell lists each kind of failure exactly when it occurs, none exactly when order, workload, sample counts, stability and ratio are right, and raises exactly on a fingerprint absent from a prefill or decode record or on a zero mean |
| `Baseline.CheckRecords` | scripts/evaluate_baseline.py:166-207 | each kind of failure is reported exactly when it occurs, none exactly when all records passed, are expected, share the identity and cover every key once |
| `Baseline.Evaluate` | scripts/evaluate_baseline.py:156-359 | the packet passes if and only if it is acceptable, and evaluation raises if and only if a complete packet lacks a prefill or decode fingerprint or has a zero mean |
| `Baseline.FrozenMatrixConsistent` | scripts/release_matrix.py:11-13 | the frozen depths give nine distinct cells per lane and contain every required stable depth |
| `ReleaseCampaign.FailureIsPermanent` | scripts/evaluate_baseline.py:166-168 | after an invocation that exited as failed, no continuation by any plans and identities ever yields a ledger acceptable under any identity |
| `Baseline.AcceptableBijection` | scripts/evaluate_baseline.py:170-207 | the records of an acceptable packet are in bijection with the expected keys, under one identity |
| `Baseline.AcceptableRoutes` | scripts/evaluate_baseline.py:231-233 | any two prefill or decode cells of an acceptable packet share their muser route and their llama route |
| `Baseline.AcceptableTimings` | scripts/evaluate_baseline.py:243-255 | the muser and llama records of every cell of an acceptable packet have five samples, exact CVs of at most 3% and a ratio of at least one |
| `ReleaseCampaign.PlanOrder` | scripts/release_matrix.py:112-128 | among the first m entries of an ABBA plan, for every m, a cell's entries are exactly as much of its expected order as m reaches |
| `ReleaseCampaign.AbbaBlocks` | scripts/evaluate_baseline.py:60-61 | in each block of four pairs the first and fourth start with muser, the second and third with llama |
| `ReleaseCampaign.FrozenIsListed` | scripts/release_matrix.py:11-13 | the 27 pairs of the matrix, listed, of which exactly the prefill and decode ones are routed |
| `ReleaseCampaign.FrozenDepths` | scripts/release_matrix.py:11-13 | the depths of the three lanes, listed |
| `ReleaseCampaign.FrozenOrder` | scripts/release_matrix.py:112-128 | the 54 commands of the release plan are the listed pairs in their listed engine order |
| `ReleaseCampaign.InterruptedOrder` | scripts/evaluate_baseline.py:221-230 | however a campaign was interrupted, each cell of a readable ledger has been observed in a prefix of the evaluator's order |
| `ReleaseCampaign.ReleasePlanFits` | scripts/campaign.py:753-759 | under a digest that tells commands apart, the frozen matrix's plan is in ABBA order with distinct digests, as the campaign theorems require |
| `ReleaseCampaign.CampaignDeliversOrder` | scripts/evaluate_baseline.py:60-61 | however often an ABBA campaign was interrupted, a success delivers every cell in the evaluator's order and every key once |
| `ReleaseCampaign.CampaignDecidedByRows` | scripts/evaluate_baseline.py:166-230 | the ledger of a successful release campaign is complete for the frozen matrix and clean exactly when it holds no failed record, so its rows alone decide the verdict |
| `ReleaseCampaign.RaisesWithoutFingerprints` | scripts/evaluate_baseline.py:231-233 | a complete packet without fingerprints raises whatever its timings |
| `ReleaseCampaign.RaisesOnZeroMean` | scripts/evaluate_baseline.py:51-57 | a complete packet of zero samples raises whatever its fingerprints |
| `ReleaseCampaign.FrozenPackets` | scripts/evaluate_baseline.py:156-359 | the frozen matrix has packets that raise for either reason and a packet that passes |
| `Liveness.LastUses` | scripts/coreml_mil_tensor_pressure.py:123-126 | the use loop computes, for every tensor, the last line at or after its definition that mentions it |
| `Liveness.LiveMeans` | scripts/coreml_mil_tensor_pressure.py:132-137 | a non-constant tensor is live on its definition line and on every later line from which some line still mentions it |
| `Liveness.PressureMeans` | scripts/coreml_mil_tensor_pressure.py:131-138 | the tensors counted on a line are exactly its live ones |
| `Liveness.Peak` | scripts/coreml_mil_tensor_pressure.py:128-142 | the sweep returns the maximum pressure over all lines, the first line that attains it and the tensors live there |
| `Liveness.PeakIsDefinition` | scripts/coreml_mil_tensor_pressure.py:128-142 | the first line of a positive peak defines a non-constant tensor |
| `Liveness.NoSmallerPlacement` | scripts/coreml_mil_tensor_pressure.py:128-142 | no placement with simultaneously live tensors on disjoint bytes fits in fewer bytes than any line's pressure |
| `Wilson.WilsonIsScoreTest` | scripts/evaluate_nvfp4_quant_yardstick.py:35-46 | the interval exists exactly for valid counts, lies in [0,1], contains the rate, and holds exactly the rates the score test does not reject |
| `Wilson.EndsAreGeometric` | scripts/evaluate_nvfp4_quant_yardstick.py:35-46 | neither clamp ever takes effect |
| `Wilson.UpperEndMonotone` | scripts/evaluate_nvfp4_quant_yardstick.py:35-46 | for fixed rows the upper end does not decrease with the mismatches |
| `Wilson.YardstickQuantile` | scripts/evaluate_nvfp4_quant_yardstick.py:20 | interval and gate are taken at the 95% quantile 1.959963984540054 |
| `Wilson.Mismatches` | scripts/evaluate_nvfp4_quant_yardstick.py:101 | the count is at most the rows and is zero exactly for identical rows |
| `Wilson.MismatchesCount` | scripts/evaluate_nvfp4_quant_yardstick.py:101 | the count is the number of positions at which the rows differ |
| `Wilson.Aligned` | scripts/evaluate_nvfp4_quant_yardstick.py:69-73 | one-based alignment succeeds exactly when every position is in range, and then selects the value at each |
| `Wilson.GateWithoutRoot` | scripts/evaluate_nvfp4_quant_yardstick.py:110-159 | the top-token verdict equals a root-free test on the two rates |
| `Wilson.NoWorseLanePasses` | scripts/evaluate_nvfp4_quant_yardstick.py:137-159 | a lane identical to the alternate, or no further from the baseline than it, always passes |
| `Wilson.VerdictMonotone` | scripts/evaluate_nvfp4_quant_yardstick.py:110-159 | a yardstick with more mismatches never fails a lane that passed |
| `Publication.StepKeepsInv` | scripts/build_gx10_container.py:107-129 | every step, failure, kill, write-back and power loss keeps the receipt whole and synced |
| `Publication.PowerLossMeans` | scripts/build_gx10_container.py:119-125 | a power loss keeps exactly the durable names and the contents on disk and ends every process |
| `Publication.ReceiptIsWhole` | scripts/build_gx10_container.py:107-129 | in every reachable state the receipt is absent or holds one publisher's whole text, and a durable name has durable content |
| `Publication.VisibleForever` | scripts/build_gx10_container.py:119-121 | once visible the content never changes, and once durable not even across power losses |
| `Publication.ReturnedOwnsReceipt` | scripts/build_gx10_container.py:121-127 | a publisher that returned is the only one ever to do so, and its text stays published forever |
| `Publication.NothingLeftBehind` | scripts/build_gx10_container.py:128-129 | when nothing was killed and every publisher has ended no temporary name remains |
| `Publication.Directory.WriteReceiptAtomic` | scripts/build_gx10_container.py:107-129 | an undisturbed call succeeds exactly when no receipt was there, its text then survives a power loss, and no other name changes |
| `TreeFraming.EncodeInjective` | scripts/export_dflash_coreml.py:85 | two names with the same UTF-8 bytes are the same name |
| `TreeFraming.EncodedExamples` | scripts/export_dflash_coreml.py:85 | the UTF-8 bytes of one code point of each length |
| `TreeFraming.PackDigits` | scripts/export_dflash_coreml.py:88-90 | byte i of a packed length is its digit i in base 256 |
| `TreeFraming.LengthOfOne` | scripts/export_dflash_coreml.py:88 | the eight bytes of length one, least significant first |
| `TreeFraming.ParseFrames` | scripts/export_dflash_coreml.py:84-93 | decoding a framed stream gives back its names and contents |
| `TreeFraming.FramesParse` | scripts/export_dflash_coreml.py:84-93 | every stream that decodes is the framing of what it decodes to |
| `TreeFraming.TreeFilesAre` | scripts/export_dflash_coreml.py:65-78 | the listed files are exactly the package's, strictly sorted by path; only links, special entries and missing paths are refused |
| `TreeFraming.BeforeMeans` | scripts/export_dflash_coreml.py:71 | paths are ordered at the first place where they differ, a proper prefix first |
| `TreeFraming.WalkRefuses` | scripts/export_dflash_coreml.py:71-78 | a refusal names the first link or special entry in path order, by its kind |
| `TreeFraming.EnumerationOrderIrrelevant` | scripts/export_dflash_coreml.py:71 | two enumerations of one directory give the same files, receipt or refusal |
| `TreeFraming.TreeReceipt` | scripts/export_dflash_coreml.py:81-94 | the digest loop, fed in pieces, hashes the framed stream and totals the sizes; over-long lengths are refused |
| `TreeFraming.SingleFileStream` | scripts/export_dflash_coreml.py:66-67 | a single file is framed as a dot, with its content's length and content |
| `TreeFraming.TotalLaw` | scripts/export_dflash_coreml.py:86-87 | the total adds up over the files |
| `TreeFraming.StreamDeterminesTree` | scripts/export_dflash_coreml.py:65-94 | two accepted packages share their stream if and only if they have the same files and contents; a file never shares one with a directory |
| `Nvfp4.ElementTable` | scripts/nvfp4_codec.py:8-12 | the sixteen constants are the E2M1 encoding, section 5.3.3 of the OCP Microscaling Formats (MX) Specification v1.0 |
| `Nvfp4.TableEntryIs` | scripts/nvfp4_codec.py:18-28 | each computed table entry is the E4M3 value of section 5.3.1 of that specification in units of 2^-9, NaN exactly for 0x7F and 0xFF |
| `Nvfp4.E4m3fnTable` | scripts/nvfp4_codec.py:15-29 | the filled table holds the encoded value of every byte |
| `Nvfp4.ScalesOrdered` | scripts/nvfp4_codec.py:15-29 | positive finite scales increase strictly with their byte up to 448, and the sign bit negates |
| `Nvfp4.ProductExact` | scripts/nvfp4_codec.py:61-62 | an element times its scale is N/1024 with an N of fewer than 24 bits, so a 32-bit float holds it exactly |
| `Nvfp4.TimesLaw` | scripts/nvfp4_codec.py:62-64 | each scaling step is a product: linear, commutative, with unit one |
| `Nvfp4.Dequantize` | scripts/nvfp4_codec.py:43-65 | refused exactly for bad rank, bad geometry or a NaN scale; otherwise every output is the exact product rounded once, under any rounding |
| `Nvfp4.EntryOf` | scripts/nvfp4_codec.py:53-63 | output (r, c) reads byte c/2 of row r, low nibble for even c, and scale c/16 of row r |

## Left out

- fp16 and INT8 rounding, Core ML conversion and compilation, and tensor-library internals: attention and shard laws are stated in exact arithmetic on weights before quantisation.
- The scaled-dot-product attention path, a call into a foreign library; the manual grouped-query path is covered.
- RMSNorm, RoPE and SiLU numerics, which are arbitrary functions here; the projections that feed the DFlash layer and its residual output projection are inputs of the model.
- DFlashReplay.Forward: covers the runtime-bundle variant; the query-selector contraction and the projections before the blend are inputs. The source concatenates attention and bundles on the channel axis, which needs a query size equal to the block; the model emits rows of channels and allows any query size.
- ShardPlan.FusedFragments: batch sizes are carried but have no meaning in the model, which follows one batch column.
- ShardMeaning.FcRecovered: the runtime's row padding, index layout and locking are not modelled.
- ShardRun.Project: of the runtime's manifest checks it models those that refuse empty widths; names, token capacities, file sizes and digests are not modelled.
- ShardRun.RunTails: likewise, and the batch is one column.
- TailMeaning.TailPrefix: follows manifests of version 6 and later, whose head returns base and normed; older manifests add the residual at the end.
- The residual addition that consumes the Muse target head and tail is not part of this model.
- Percentiles.TailThroughput: covers positive wall times; a zero wall makes the evaluator divide by zero.
- The median figures and the measured-acceptance block of the composite verifier, which add only easier members.
- Lease.Exclusion: assumes that wrappers outlive their children, that the lock file is never replaced and that no program unlocks a description a wrapper is relying on (any other unlock is a step); process listing, quiet periods and receipts are not modelled.
- Campaign.PassedIsPrefix: one invocation at a time; two concurrent invocations on one ledger are not modelled, and the child run with its receipt check is an oracle that passes or fails. The receipt reader (`scripts/campaign.py:1974-1979`) demands nine keys while the wrapper (`scripts/accelerator_safe.py:428-441`) writes twelve, so no receipt round trip is claimed.
- Campaign.ReadAppend: a ledger line is a parsed record or not; JSON text is not modelled, and cells and engines are structured values rather than strings.
- Baseline.Evaluate: workload and route projections of the fingerprints are arbitrary functions; a recorded fingerprint is an object and recorded samples are integers, so type errors on other JSON values and float overflow on huge samples are not modelled, nor are ledgers that do not parse; missing identity or ledger files, the prior-attempt listing and the retained per-pair report are not modelled, and failure messages are kinds rather than text.
- Parsing of MIL text: declared tensors, sizes and mentioned names are inputs; each name has one declaration line, the last one.
- The bootstrap and the perplexity gate of the yardstick, which rest on a library random generator; the consistency checks between reports other than the row counts.
- Publication.ReceiptIsWhole: creation of the parent directory and JSON encoding are not modelled; a temporary name is distinct from the receipt's by construction.
- TreeFraming.StreamDeterminesTree: is about the hashed stream, not the SHA-256 digest, and reads each file's recorded size as the length of its content; names are Unicode strings, so a file name that is not valid UTF-8, on which encoding raises, is outside the model; other copies of the function that sort path objects are not modelled.
- Nvfp4.Dequantize: the tensor scale is a finite 32-bit float; overflow, the sign of zero and `compressed_tensors_scale2`, a guarded reciprocal, are not modelled.
- HTTP clients, benchmark and capture scripts, evidence normalisation, the per-lane evaluators, feature freezes, sealing and the Rust engine other than its shard consumer.
