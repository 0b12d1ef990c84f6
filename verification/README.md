# Verified models of the checkpoint, inference and callback protocols

This project models the parts of `cosmos_framework` whose correctness depends on several ranks,
processes or passes agreeing with each other, and proves that they do. Tensors, meshes and processes
are reduced to sequences, coordinates and steps; the branches, edge cases and error returns follow
the Python code. Code that updates variables or objects step by step is a `method` or `class` proved
against a specification function; the theorems are lemmas about that function.

| file | models |
|---|---|
| `DeviceMesh`, `Keys`, `StateTree`, `DedupLoad` | deduplicated distributed checkpoint load |
| `AsyncCheckpoint`, `CheckpointProgress`, `SyncCheckpoint` | trainer / background saver protocol, publication of the latest checkpoint, progress, and the form without a background process |
| `Packing`, `ReplicaBatches`, `StepAlignment` | inference batching over replicas, collective alignment |
| `TemporalPadding`, `TransferChunks` | overlapping-chunk transfer generation |
| `JsonText`, `JsonReader`, `Strings`, `StructuredCaption` | caption printing, scanning and parsing |
| `HfShards`, `ExportThread` | safetensors sharder, export thread |
| `MoeCoactivation` | expert co-activation counts |
| `SkipNan` | cross-rank NaN counter |
| `DataloaderCursor` | dataloader position callbacks and the trainer's fetching loop |
| `WorkerStream`, `Batchers`, `StreamResume` | one worker's stream, its batchers and the loader's stamp, and where a checkpoint restarts it |
| `DiffusersRemap` | Diffusers weight map, planner and reader |
| `Blocks`, `Collections`, `Wrappers` | block arithmetic, finite sets and maps, `Option` and `Result` |

## What the proofs found

Several promises hold only under a condition the code or its documentation does not state. The code
is modelled as it is; each exact condition is a theorem, and an input that breaks the promise is given.

- **Dedup load.** `_broadcast_state_dict` says the set of leaves broadcast is precisely the set the
  planner dropped. It also broadcasts leaves that were never requested (skip patterns, partial
  checkpoints), so ranks that initialised such a leaf differently end with the reader's value. The
  load equals the redundant one on a leaf exactly if the leaf was requested or was initialised alike
  (`DedupLeafLoad`, `SkippedLeafIsOverwritten`). The broadcasts are said to need ascending dimensions;
  the result proved for `BroadcastDims` does not depend on the order.
- **Shard manifest.** If the last tensors are empty and follow nothing, or an oversized tensor, the
  final shard has no bytes and is not written although the manifest names it (`ManifestAgreement`,
  `ManifestCanDisagree`). Positive sizes are always consistent.
- **Step alignment.** The divisibility guard is not only sufficient but necessary: the maximum aligns
  every assignment of step counts iff one of the two sizes divides the other (`GuardIsExact`).
- **Latest checkpoint.** In the distillation class the dataloader pickles are written by the background
  worker after the last collective, so the latest-checkpoint file can name an iteration some other rank
  has no pickle of. This happens in some run of every configuration with more than one rank that saves
  anything, and never otherwise (`PicklesCoveredIff`). In the base class it cannot (`PublishIsSafe`).
- **Staging count.** A success callback that raises loses the one completion message while the
  in-progress flag stays set; training ends in that state. Every configuration that saves anything has
  such a run (`StagingIsExclusive`, `MessageCanBeLostIff`).
- **Structured captions.** A caption whose prompt contains a tagged block that holds a JSON object is
  shadowed by it; every other caption comes back (`ParsePrinted`, `ShadowedCaption`). Responses that
  wrap a caption in fences, prose or tags are parsed without further conditions (`RecoverUntagged`,
  `RecoverTagged`).
- **Synchronous saves.** Without the background process the same states of storage are reachable
  (`SameOutcomes`), but there both classes pickle the dataloader state last, so with several ranks the
  latest-checkpoint file can be ahead of some rank's pickle (`SyncPicklesCoveredIff`); and the distillation
  class calls the success callback from a `finally` block, also for a save that raised
  (`SyncCallbacksTruthfulIff`).
- **Step counts.** Wherever the divisibility guard passes, a call ends on all ranks, and alike on peers,
  exactly if no dp_shard group mixes batches that reach the reduction with transfer or reasoner batches,
  which return before it (`EndsTogetherIff`, `CallsAreAligned`).
- **Joint dataloader state.** A resumed joint run is the uninterrupted one exactly if no dataset is
  named `global_id`, the name the joint loader's constructor refuses (`JointResume`). After the load the
  trainer sets the outer id to iteration times gradient accumulation. That is the rank's id exactly if
  its own fetches number that product (`TrainerResume`): without context parallelism always, which also
  repairs the id of the checkpoint saved when training ends, after one more batch was fetched and
  discarded; with context parallelism, where the ranks take turns, only after no iteration or a single
  one the rank itself fetched (`TrainerResumeUnderSchedule`). Otherwise the setting overwrites the right
  id that the load restored (`TrainerOverwritesId`).
- **Streams under context parallelism.** The loader shards by global rank, so the ranks of a
  context-parallel group read different streams under the same worker ids, and every rank saves the
  largest cursor it sees under an id. A worker restarts at its first item not settled exactly if no
  peer's cursor under its id is ahead (`SessionResumes`, `JointResumeContinuesStreams`);
  `ContextParallelSkips` is a run of three batches after which an item is skipped.
- **The loader's stamp.** The guard refuses a group of several that is not contiguous. It does not see
  groups of one out of order: the saved cursor is gap-free after every group exactly if every group takes
  the first open position (`GapFreeIff`, `ReorderedSinglesSkip`). All three batchers do that. But the
  look-ahead of `SequentialPackingBatcher` exists to build groups that pass over an item, and those the
  guard refuses, although its message recommends a sequential batcher (`PassingOverIsRefused`).

## Assumptions

- `dcp.save` is a collective: it returns on a rank only after every rank has written its shard of that
  entry. Queues are first-in first-out. A crashed process is one that takes no further steps. A timeout
  is a step that may happen at any time and ends training. A dataloader state is registered, so every save
  has a pickle.
- A broadcast copies the source rank's value to the group. Every tensor's mesh is one full grid, or
  equal disjoint grids, over all ranks. Dictionary keys are identified with their `repr`.
- dp_shard groups are contiguous blocks of ranks, as the row-major mesh of
  `cosmos_framework/utils/generator/parallelism.py:150-181` builds them. All-reduces return the maximum
  or sum of their inputs.
- The diffusion model with its decoder is a function returning `chunk_frames` frames; the normalisation
  of pixels is a function of the frame.
- `json.loads` is a function parameter in `StructuredCaption` up to `ParsePrintedBy`, where it is asked
  only to read back the caption at hand. From `ReferenceReads` on it is the reader of `JsonReader`, which
  reads exactly the compact form the printer writes. Text is a sequence of Unicode scalar values.
- `torch.topk` returns `top_k` distinct experts per token, and `top_k >= 2` (for one expert per token the
  code divides by zero). Counters are unbounded integers and rates exact reals.
- The regular-expression tables of `diffusers_weights.py` are function parameters.
- The ranks of a context-parallel group fetch in turn, one iteration each, and every one of them sees every
  batch, as `cosmos_framework/trainer/__init__.py:139-190` does. Which worker a batch comes from, and how
  the ranks' streams interleave, is arbitrary.

## Model

| member | source | states |
|---|---|---|
| DeviceMesh.ReplicateDimsAre | cosmos_framework/checkpoint/dcp.py:461-484 | the replicate dimensions are exactly the `Replicate` placements of size above 1 |
| DeviceMesh.ElectedReader | cosmos_framework/checkpoint/dcp.py:440-458 | every replica group, on any mesh, contains exactly one rank that is the assigned reader |
| DeviceMesh.GroupSharesReader | cosmos_framework/checkpoint/dcp.py:440-458 | members of one replica group elect the same reader |
| DeviceMesh.BroadcastAlong | cosmos_framework/checkpoint/dcp.py:513-516 | one collective hands every buffer of a dimension group the value at local rank 0 |
| DeviceMesh.BroadcastDims | cosmos_framework/checkpoint/dcp.py:509-516 | after the loop over any list of dimensions every rank holds the value found at 0 along all of them |
| DeviceMesh.BroadcastTensorLeaf | cosmos_framework/checkpoint/dcp.py:487-518 | in-place broadcasts leave every rank with its elected reader's tensor |
| DeviceMesh.DroppedIffBroadcast | cosmos_framework/checkpoint/dcp.py:402-412 | a DTensor is broadcast exactly when the planner dropped some rank's read of it |
| DeviceMesh.DedupLeafLoad | cosmos_framework/checkpoint/dcp.py:375-518 | one leaf: dedup load equals redundant load on every rank iff the leaf was requested or the initial values were replicated |
| DeviceMesh.SkippedLeafIsOverwritten | cosmos_framework/checkpoint/dcp.py:414-437 | a skipped leaf with different initial values is overwritten by the reader's |
| StateTree.Lockstep | cosmos_framework/checkpoint/dcp.py:546-583 | trees of equal structure, whatever their insertion order, issue the identical sequence of collectives |
| StateTree.ShapeFits | cosmos_framework/checkpoint/dcp.py:585-594 | on trees of equal structure the rebuild finds every key and every list item in the skeleton |
| StateTree.RebuildMerges | cosmos_framework/checkpoint/dcp.py:569-594 | after strip and rebuild each position holds the local tensor or rank 0's non-tensor leaf |
| StateTree.RebuildKeepsForm | cosmos_framework/checkpoint/dcp.py:585-594 | a rebuilt dictionary has the local keys in their order, and tuples, lists and empty containers stay what they are |
| StateTree.FormAndLeaves | cosmos_framework/checkpoint/dcp.py:585-594 | a dictionary is determined by its form and the leaf at every position |
| Keys.SortedKeeps | cosmos_framework/checkpoint/dcp.py:554-556 | sorting visits every key once, in ascending order |
| Keys.SortedIgnoresOrder | cosmos_framework/checkpoint/dcp.py:546-556 | dictionaries with the same keys are visited in the same order |
| StateTree.WalkFor | cosmos_framework/checkpoint/dcp.py:551-563 | the walk of a tree issues for each position exactly the collectives of the leaf there, in their order, and none for any other position |
| DedupLoad.LeafHandOn | cosmos_framework/checkpoint/dcp.py:487-518 | a leaf's collectives, one after the other, hand every rank the value its elected reader held |
| DedupLoad.AfterWalkAt | cosmos_framework/checkpoint/dcp.py:551-563 | performing the whole sequence of collectives of the walk on all ranks' trees leaves every tensor position with the elected reader's tensor and changes nothing else |
| DedupLoad.WalkTensors | cosmos_framework/checkpoint/dcp.py:551-563 | the walk performs those collectives in place, one after the other |
| DedupLoad.LoadedAt | cosmos_framework/checkpoint/dcp.py:521-600 | after broadcasts, strip and rebuild every rank holds its elected reader's leaf at every position |
| DedupLoad.LoadedIsDetermined | cosmos_framework/checkpoint/dcp.py:521-600 | the result is the one dictionary of the rank's own form with its elected reader's leaf at every position |
| DedupLoad.BroadcastStateDict | cosmos_framework/checkpoint/dcp.py:521-600 | all ranks issue the same collectives; then every rank holds a dictionary of its own form, tuples and lists included, with its elected reader's leaf at every position |
| DedupLoad.DedupLoadRefinesRedundantLoad | cosmos_framework/checkpoint/dcp.py:392-600 | elected reads followed by the broadcast pass leave every rank with the very dictionary of the redundant load iff every leaf was requested or initialised alike on its replicas |
| AsyncCheckpoint.TrainerKeepsInv | cosmos_framework/checkpoint/dcp.py:965-1028 | every trainer step, raising callbacks and timeouts included, keeps the per-rank protocol invariant |
| AsyncCheckpoint.SaverKeepsInv | cosmos_framework/checkpoint/dcp.py:225-256 | every saver step, failures included, keeps it |
| AsyncCheckpoint.RunInv | cosmos_framework/checkpoint/dcp.py:965-1163 | the invariant of all ranks holds after every interleaving |
| AsyncCheckpoint.StagingIsExclusive | cosmos_framework/checkpoint/dcp.py:965-1028 | queued job + job being written + unconsumed SaveDone is 1 iff a checkpoint is in progress, so staging never overwrites a buffer in use |
| AsyncCheckpoint.CallbacksInOrder | cosmos_framework/checkpoint/dcp.py:992-1028 | success callbacks fire once per save, in order, only when every rank's entries are written; Terminate only after the last acknowledgement |
| AsyncCheckpoint.EntryWritten | cosmos_framework/checkpoint/dcp.py:1060-1078 | once a save's collectives have returned, each of its entries is stored with that save's own data |
| AsyncCheckpoint.PublishIsSafe | cosmos_framework/checkpoint/dcp.py:1080-1082 | whenever the latest-checkpoint file names N, all ranks' entries of N are written, and in the base class all dataloader pickles |
| AsyncCheckpoint.LeaderPickleIsWritten | cosmos_framework/checkpoint/dcp_distill.py:355-377 | in either class rank 0's own pickle of the published iteration is written |
| AsyncCheckpoint.PicklesCoveredIff | cosmos_framework/checkpoint/dcp_distill.py:355-377 | for every configuration: every run has all ranks' pickles of the published iteration iff pickles precede the job, or there is one rank, or nothing is saved |
| AsyncCheckpoint.MessageCanBeLostIff | cosmos_framework/checkpoint/dcp.py:1003-1028 | a run loses its completion message to a raising success callback, with the in-progress flag still set, in every configuration that saves anything and in no other |
| AsyncCheckpoint.DistributedCheckpointer.WaitForPreviousAsyncCheckpoint | cosmos_framework/checkpoint/dcp.py:992-1028 | the code performs exactly one receive step of the protocol, or none when nothing is in progress; it raises iff the wait times out, the save failed or the callback raised, and the flag stays set iff there was a timeout or the callback raised |
| AsyncCheckpoint.DistributedCheckpointer.Save | cosmos_framework/checkpoint/dcp.py:1103-1140 | in the asynchronous mode, the save is the wait followed by pickle, staging and submission, or stops raising after the wait |
| AsyncCheckpoint.DistributedCheckpointer.Finalize | cosmos_framework/checkpoint/dcp.py:1155-1163 | finalize waits for the last checkpoint before it sends Terminate, and does nothing when the background process is not alive |
| CheckpointProgress.NoDeadlock | cosmos_framework/checkpoint/dcp.py:965-1163 | in every reachable state without a failure, timeout or raising callback some rank can take a step, until every trainer has finished and every saver has exited |
| CheckpointProgress.CanBeCompleted | cosmos_framework/checkpoint/dcp.py:965-1163 | every such run extends by steps that are no failure to one in which everybody is done |
| SyncCheckpoint.AsyncRefinesSync | cosmos_framework/checkpoint/dcp.py:225-256 | whatever background processes store and publish in any run, crashes, failures and timeouts included, a run of synchronous saves stores and publishes too, shard by shard |
| SyncCheckpoint.SyncRefinesAsync | cosmos_framework/checkpoint/dcp.py:1141-1148 | every run of synchronous saves is, step by step, a run of the asynchronous protocol |
| SyncCheckpoint.SameOutcomes | cosmos_framework/checkpoint/dcp.py:1135-1148 | the two modes can leave exactly the same things on storage |
| SyncCheckpoint.SyncPublishIsSafe | cosmos_framework/checkpoint/dcp.py:1060-1082 | in the synchronous mode a published iteration has all entries of all ranks and rank 0's pickle |
| SyncCheckpoint.SyncPicklesCoveredIff | cosmos_framework/checkpoint/dcp.py:1060-1082 | in the synchronous mode, in either class, every run covers all pickles iff there is one rank or nothing is saved |
| SyncCheckpoint.SyncCallbacksTruthfulIff | cosmos_framework/checkpoint/dcp_distill.py:378-386 | a success callback always means a save stored on every rank iff it is the base class or nothing is saved |
| SyncCheckpoint.SyncCheckpointer.SaveStateDictWorker | cosmos_framework/checkpoint/dcp.py:1060-1082 | entries, pickle and, on rank 0, publication in this order, raising wherever an operation does |
| SyncCheckpoint.SyncCheckpointer.Save | cosmos_framework/checkpoint/dcp.py:1141-1148 | the synchronous save performs exactly the steps of the protocol up to where it raises, and ends with success or the raise |
| Packing.GreedyTakesMost | cosmos_framework/inference/inference.py:237-263 | no admissible partition starts with a longer batch than the greedy one |
| Packing.GreedyIsOptimal | cosmos_framework/inference/inference.py:237-263 | no order-preserving admissible partition has fewer batches than the greedy packing |
| Packing.GreedyIsUnique | cosmos_framework/inference/inference.py:237-263 | the greedy packing is determined by the items, so ranks holding the same samples form the same batches |
| Packing.GreedyPackIs | cosmos_framework/inference/inference.py:237-263 | the fold the loop performs is the greedy packing, and the only one |
| Packing.PackLoop | cosmos_framework/inference/inference.py:237-263 | the loop yields the greedy packing, or fails exactly on an unexpanded item |
| Packing.IterPackedBatches | cosmos_framework/inference/inference.py:234-263 | exactly one budget must be given and every item expanded; the batches are the greedy packing, hence in order and as few as possible; under a token budget a batch of several items keeps it and the next item would exceed it, under a sequence budget all batches but the last hold exactly the allowed number of items, at least one |
| ReplicaBatches.FinalizeSampleArgsList | cosmos_framework/inference/inference.py:888-912 | seed expansion in order: output i of a sample has the base seed plus i and directory i of its own, single-output samples stay; fails exactly when a multi-output sample has no output directory |
| ReplicaBatches.ExpandedAreSingle | cosmos_framework/inference/inference.py:888-912 | after expansion every sample has one output, so the packer's check cannot fail |
| ReplicaBatches.ExpandedHaveDirs | cosmos_framework/inference/inference.py:888-912 | if every sample has an output directory so has every expanded one |
| ReplicaBatches.ShardOfIndex | cosmos_framework/inference/inference.py:1403-1404 | mod-sharding puts every index in exactly one replica's shard, at one position |
| ReplicaBatches.CreateBatches | cosmos_framework/inference/inference.py:1400-1480 | one rank's shard cut by the budget in force, counted in the samples, followed by padding up to the reduced count, with the exact error cases |
| ReplicaBatches.MaxCountIsMax | cosmos_framework/inference/inference.py:1420-1430 | the MAX all-reduce over all ranks bounds every local batch count and is one of them |
| ReplicaBatches.CreateBatchesOnAllRanks | cosmos_framework/inference/inference.py:1400-1480 | expansion, packing, the reduction of the counts of all ranks, real batches and padding: every rank yields its greedy batches padded to the maximum of all local counts, or all fail for the same stated cause |
| ReplicaBatches.FirstRank | cosmos_framework/inference/inference.py:1950-1976 | each replica has exactly one rank with index 0, inside the world |
| ReplicaBatches.SlotIsUnique | cosmos_framework/inference/inference.py:1400-1420 | within its replica a sample sits in exactly one slot of one batch |
| ReplicaBatches.CallsAgree | cosmos_framework/inference/inference.py:1416-1480 | all ranks make equally many calls, as many as some rank needs; ranks of one replica make identical calls one by one; a call is padding exactly beyond the rank's own batches |
| ReplicaBatches.ReplicaCoverage | cosmos_framework/inference/inference.py:1400-1480 | each writable sample is processed by exactly one rank in exactly one slot, and no padding call is processed on any rank |
| ReplicaBatches.CallsAreAligned | cosmos_framework/inference/inference.py:1482-1665 | whatever a call's step count and kind are computed from its batch, wherever the guard passes, every call ends on all ranks and alike on group and replica peers iff no dp_shard group mixes calls that reach the reduction with calls that return before it |
| StepAlignment.AllReduceMaxIsMax | cosmos_framework/inference/inference.py:1661-1665 | the reduction is attained in the dp_shard group and bounds it |
| StepAlignment.StepsAreAligned | cosmos_framework/inference/inference.py:1638-1665 | if the guard lets a layout through, ranks sharing a group or a replica agree on a step count that none exceeds and one asked for |
| StepAlignment.AlignNumStepsIs | cosmos_framework/inference/inference.py:1636-1663 | the alignment refuses exactly the layouts where neither size divides the other; otherwise it returns the largest count of the group |
| StepAlignment.EndsTogetherIff | cosmos_framework/inference/inference.py:1482-1665 | where the guard passes, no rank waits forever in the reduction and peers end alike iff the ranks of each dp_shard group all reach it or none does |
| StepAlignment.GuardIsExact | cosmos_framework/inference/inference.py:1652-1660 | the maximum aligns every assignment of step counts iff one of the two sizes divides the other |
| TemporalPadding.ZigzagIsSmooth | cosmos_framework/inference/vision.py:216-231 | neighbouring padded frames come from source frames at most one apart |
| TemporalPadding.ZigzagPrefix | cosmos_framework/inference/vision.py:216-231 | the input is a prefix of the padding |
| TemporalPadding.MirrorContinues | cosmos_framework/inference/vision.py:224-230 | appending the reversed sequence continues the zigzag |
| TemporalPadding.DoubledIsMultiple | cosmos_framework/inference/vision.py:224-230 | length minus one doubles at every full reflection |
| TemporalPadding.PadTemporalFrames | cosmos_framework/inference/vision.py:216-231 | terminates, fails exactly on empty input that needs frames, returns max(T, target) frames following the zigzag |
| TransferChunks.GetNumChunksErrors | cosmos_framework/inference/transfer.py:43-54 | chunking fails exactly on a chunk without frames and on an overlap that leaves no new ones |
| TransferChunks.ChunkFramesIs | cosmos_framework/inference/transfer.py:441-442 | a chunk has one frame for a single frame, else the least number that is enough and one more than a multiple of the compression |
| TransferChunks.ChunkLayout | cosmos_framework/inference/transfer.py:43-54 | every chunk starts inside the video and adds new frames, all but the last are full, the last reaches the end |
| TransferChunks.FrameOwner | cosmos_framework/inference/transfer.py:43-54 | every frame belongs to a chunk position that survives the overlap removal |
| TransferChunks.StitchedAt | cosmos_framework/inference/transfer.py:563-576 | a kept frame of chunk k lands at its global index |
| TransferChunks.StitchedLength | cosmos_framework/inference/transfer.py:563-573 | the stitched pieces have one stride per chunk after the first |
| TransferChunks.ControlsStitch | cosmos_framework/inference/transfer.py:563-576 | stitched control slices are the first total_frames of the padded control video |
| TransferChunks.OutputsStitch | cosmos_framework/inference/transfer.py:563-573 | every output frame is the one its chunk generated for that position |
| TransferChunks.ConditionsChain | cosmos_framework/inference/transfer.py:507-518 | conditioning frame j of a later chunk is the frame the previous chunk generated for the same global index |
| TransferChunks.FirstCondition | cosmos_framework/inference/transfer.py:493-498 | the first chunk is conditioned on the leading input frames, at most as many as there are; without input, or with too many, it raises |
| TransferChunks.FillTarget | cosmos_framework/inference/transfer.py:490-526 | the target starts with the conditioning frames and repeats the last of them; without any it is zero |
| TransferChunks.ControlNorms | cosmos_framework/inference/transfer.py:480-488 | every hint's slice is cut at the video's end, padded to the chunk length and normalised |
| TransferChunks.RunIsDetermined | cosmos_framework/inference/transfer.py:480-571 | controls, conditioning, target and output of every chunk are determined by the inputs and the model |
| TransferChunks.RunChunks | cosmos_framework/inference/transfer.py:480-571 | for every chunk k the output is the model's answer to chunk k's control slices, target and conditioning count, and the pieces kept are the outputs without their overlap |
| TransferChunks.GenerateTransferSample | cosmos_framework/inference/transfer.py:439-576 | with chunks of that length: succeeds iff the overlap, frames and conditioning fit; then every chunk is the model's answer to its own inputs, the first starts from the leading input frames, later ones from the asked number of frames, targets are filled up with the last of them, and the result is lossless: exact length, every frame from its chunk's position, exact controls, conditioning at equal global indices |
| JsonText.FirstJsonObject | cosmos_framework/inference/structured_caption.py:151-181 | the loop over depth, in_str and escaped returns the text from the first brace to where the automaton first closes, and nothing if it never closes |
| JsonText.EatEscapeAll | cosmos_framework/inference/structured_caption.py:151-181 | an escaped string never ends or escapes early inside the scanner |
| JsonText.EatDumps | cosmos_framework/inference/structured_caption.py:151-181 | any printed value inside an object leaves depth and string state unchanged |
| JsonText.FirstObjectFindsDumps | cosmos_framework/inference/structured_caption.py:151-181 | for every object, brace-free prefix and suffix, the scanner returns exactly the printed text |
| JsonReader.ReadsValue | cosmos_framework/inference/structured_caption.py:259-265 | a printed value is read back whatever follows it |
| JsonReader.LoadsReadsDumps | cosmos_framework/inference/structured_caption.py:259-265 | the compact encoding loses nothing |
| JsonReader.DumpsIsInjective | cosmos_framework/inference/structured_caption.py:259-265 | different captions have different prompts |
| JsonReader.ValueIsShort | cosmos_framework/inference/structured_caption.py:184-213 | what is read from a text prints no longer than the text read |
| StructuredCaption.StripIs | cosmos_framework/inference/structured_caption.py:144 | stripping takes all blanks from both ends and nothing else |
| StructuredCaption.FencesAround | cosmos_framework/inference/structured_caption.py:142-148 | stripping blanks and fences never reaches into the object |
| StructuredCaption.UsualFences | cosmos_framework/inference/structured_caption.py:142-148 | fences with and without the language leave nothing around the object |
| StructuredCaption.ExtractWrapped | cosmos_framework/inference/structured_caption.py:136-139 | the first complete tagged block is extracted, without surrounding blanks |
| StructuredCaption.ExtractTagIff | cosmos_framework/inference/structured_caption.py:136-139 | a block is extracted iff there is an opening tag with a closing one behind it |
| StructuredCaption.CandidateRecovers | cosmos_framework/inference/structured_caption.py:202-212 | a caption in fences or brace-free prose is recovered from a candidate |
| StructuredCaption.ParseUntagged | cosmos_framework/inference/structured_caption.py:184-213 | for any reader that reads the caption back: a response without the opening tag yields the caption, unless the whole response is itself another object |
| StructuredCaption.RecoverUntagged | cosmos_framework/inference/structured_caption.py:184-213 | with the reference reader, a response without the opening tag yields the caption printed in it, fenced or in brace-free prose |
| StructuredCaption.ParseTagged | cosmos_framework/inference/structured_caption.py:184-213 | for any reader that reads the caption back: a tagged caption is recovered, unless the whole block is itself another object |
| StructuredCaption.RecoverTagged | cosmos_framework/inference/structured_caption.py:184-213 | with the reference reader, a response with a tagged caption, itself fenced or in brace-free prose, yields that caption, whatever surrounds the block |
| StructuredCaption.TagNotPrinted | cosmos_framework/inference/structured_caption.py:259-265 | printing creates no tag that no string of the caption contains |
| StructuredCaption.ParsePrintedBy | cosmos_framework/inference/structured_caption.py:184-265 | for any reader that reads the caption back, a caption no string of which holds the tag comes back from its prompt |
| StructuredCaption.ParsePrinted | cosmos_framework/inference/structured_caption.py:184-265 | with the reference reader, parsing a printed caption gives it back iff the prompt has no tagged block or the block in it holds no JSON object |
| StructuredCaption.ShadowedCaption | cosmos_framework/inference/structured_caption.py:196-212 | a caption whose own string shadows it |
| StructuredCaption.ReferenceRoundTrip | cosmos_framework/inference/structured_caption.py:184-265 | the round trip with nothing assumed about the reader |
| HfShards.GatherWeights | cosmos_framework/callbacks/hf_export.py:220-275 | every rank tracks the same boundaries; rank 0 writes the specified files, manifest and total |
| HfShards.ShardsAreMinimal | cosmos_framework/callbacks/hf_export.py:252-273 | for positive sizes no order-preserving export has fewer files |
| HfShards.SplitIsPackFold | cosmos_framework/callbacks/hf_export.py:252-273 | for positive sizes the sharder cuts exactly where the greedy packer does |
| HfShards.ShardsWithinLimit | cosmos_framework/callbacks/hf_export.py:252-273 | every shard is within the limit or holds one oversized tensor after empty ones only |
| HfShards.SplitKeepsEverything | cosmos_framework/callbacks/hf_export.py:252-273 | the shards concatenate to the parameters |
| HfShards.ShardMembership | cosmos_framework/callbacks/hf_export.py:257-269 | a parameter is in exactly the shard its index names |
| HfShards.EmptyTailCondition | cosmos_framework/callbacks/hf_export.py:271-273 | the last shard has no bytes iff the sizes end as described above |
| HfShards.ManifestAgreement | cosmos_framework/callbacks/hf_export.py:220-275 | for distinct names manifest and files agree iff the last shard was not dropped |
| HfShards.ManifestCanDisagree | cosmos_framework/callbacks/hf_export.py:271-273 | an input whose manifest names a file that is never written |
| ExportThread.StepKeepsInv | cosmos_framework/callbacks/hf_export.py:171-202 | every trainer and worker step keeps the protocol invariant |
| ExportThread.StoreKeepsInv | cosmos_framework/callbacks/hf_export.py:291-303 | a worker never stores over a pending exception |
| ExportThread.NoFailureIsLost | cosmos_framework/callbacks/hf_export.py:171-303 | in every interleaving at most one thread is alive and each stored exception is raised once, before the next export or at train end |
| ExportThread.HFExportCallback.JoinThread | cosmos_framework/callbacks/hf_export.py:173-178 | joining a live thread is the worker's remaining steps |
| ExportThread.HFExportCallback.OnSaveCheckpoint | cosmos_framework/callbacks/hf_export.py:171-190 | raises the previous worker's exception, else starts exactly one thread |
| ExportThread.HFExportCallback.OnTrainEnd | cosmos_framework/callbacks/hf_export.py:192-202 | afterwards no thread is alive and every stored exception has been raised |
| MoeCoactivation.MakeCoactivationPairs | cosmos_framework/model/generator/reasoner/qwen3_vl_moe/qwen3_vl_moe.py:51-59 | every pair of slots is listed once |
| MoeCoactivation.TokenCount | cosmos_framework/model/generator/reasoner/qwen3_vl_moe/qwen3_vl_moe.py:443-447 | one token adds one to the upper-triangle entry of each pair of its experts and to nothing else |
| MoeCoactivation.FlattenIndices | cosmos_framework/model/generator/reasoner/qwen3_vl_moe/qwen3_vl_moe.py:443-453 | the flat index list of a batch |
| MoeCoactivation.ScatterOnes | cosmos_framework/model/generator/reasoner/qwen3_vl_moe/qwen3_vl_moe.py:448-454 | scatter-add counts every index with its multiplicity |
| MoeCoactivation.SparseMoeBlock.RecordCoactivations | cosmos_framework/model/generator/reasoner/qwen3_vl_moe/qwen3_vl_moe.py:435-455 | the buffer stays the co-activation matrix of all tokens since the last reset |
| MoeCoactivation.SparseMoeBlock.GetCoactivationCounts | cosmos_framework/model/generator/reasoner/qwen3_vl_moe/qwen3_vl_moe.py:628-633 | returns that matrix, and zeroes the buffer iff asked to |
| MoeCoactivation.PairsWithExpert | cosmos_framework/callbacks/moe_specialization_callback.py:107-111 | row sum plus column sum is K-1 times the expert's token count |
| MoeCoactivation.ReduceHolds | cosmos_framework/callbacks/moe_specialization_callback.py:50-56 | the all-reduced matrix is the matrix of all ranks' tokens |
| MoeCoactivation.CoactivationIsExact | cosmos_framework/callbacks/moe_specialization_callback.py:102-116 | over all ranks the derived counts are the true token counts, the rate of a pair is the number of tokens routed to both over that routed to the first (at least 1), and no rate exceeds 1 |
| SkipNan.SkipNaNStep.OnBeforeBackward | cosmos_framework/callbacks/skip_nan_step.py:37-44 | the flag is raised exactly by a NaN or Inf loss |
| SkipNan.SkipNaNStep.OnBeforeOptimizerStep | cosmos_framework/callbacks/skip_nan_step.py:46-81 | the counter update, with gradients zeroed in place exactly when every rank flagged the step |
| SkipNan.StepAgrees | cosmos_framework/callbacks/skip_nan_step.py:46-81 | ranks in equal states stay in equal states |
| SkipNan.NanSkipAgreement | cosmos_framework/callbacks/skip_nan_step.py:37-81 | over every run all ranks hold the number of trailing all-NaN steps and abort together exactly at the first run of the limit, never when it is 0 |
| DataloaderCursor.CosmosDataLoaderStateCallback.UpdateStateFromBatch | cosmos_framework/callbacks/cosmos_dataloader_state.py:87-98 | the state becomes the per-worker lexicographic maximum with the batch; without worker ids nothing happens, a missing column or unequal lengths raise |
| DataloaderCursor.CosmosDataLoaderStateCallback.StateDict | cosmos_framework/callbacks/cosmos_dataloader_state.py:127-132 | saves exactly the state |
| DataloaderCursor.CosmosDataLoaderStateCallback.LoadStateDict | cosmos_framework/callbacks/cosmos_dataloader_state.py:134-147 | replaces the state and exports exactly its cursors; an empty dictionary changes nothing |
| DataloaderCursor.DataLoaderStateCallback.UpdateStateFromBatch | cosmos_framework/callbacks/dataloader_state.py:36-47 | the older callback meets the same specification, except that missing worker ids raise |
| DataloaderCursor.DataLoaderStateCallback.OnTrainingStepBatchEnd | cosmos_framework/callbacks/dataloader_state.py:49-58 | the older callback tracks positions only for the no_replace distributor |
| DataloaderCursor.StateIsUnique | cosmos_framework/callbacks/cosmos_dataloader_state.py:87-98 | the state depends on which rows were seen, not on their order or number, so both callbacks agree |
| DataloaderCursor.LatestContinues | cosmos_framework/callbacks/cosmos_dataloader_state.py:87-98 | the row-by-row update is the per-worker lexicographic maximum |
| DataloaderCursor.ContinuesComposes | cosmos_framework/callbacks/cosmos_dataloader_state.py:100-108 | batches one after the other act as one |
| DataloaderCursor.ResumeIsUninterrupted | cosmos_framework/callbacks/cosmos_dataloader_state.py:127-147 | saving, loading and continuing ends in the state of the uninterrupted run |
| DataloaderCursor.RunTracksDatasets | cosmos_framework/callbacks/cosmos_dataloader_state.py:179-193 | over any sequence of batches, whoever fetched them, the outer id counts the rank's own fetches and each dataset's state is the maximum of the rows drawn from that dataset |
| DataloaderCursor.JointStateIgnoresOrder | cosmos_framework/callbacks/cosmos_dataloader_state.py:179-193 | any permutation of the batches gives the same joint state |
| DataloaderCursor.JointRoundTrip | cosmos_framework/callbacks/cosmos_dataloader_state.py:212-224 | the joint checkpoint restores both levels iff no dataset is named `global_id`, and the inner states in any case |
| DataloaderCursor.JointResume | cosmos_framework/callbacks/cosmos_dataloader_state.py:174-224 | saving, loading into a fresh joint callback and continuing equals the uninterrupted run, for every sequence of batches before and after, iff no dataset bears the name the loader refuses |
| DataloaderCursor.TrainerResume | cosmos_framework/trainer/__init__.py:215-217 | whatever outer id was saved, the trainer's own setting of it makes the resumed run the uninterrupted one iff the rank's own fetches number iteration times gradient accumulation |
| DataloaderCursor.TrainerResumeUnderSchedule | cosmos_framework/trainer/__init__.py:159-217 | under the round-robin schedule that is iff there is no context parallelism, or no iteration yet, or one that this rank fetched |
| DataloaderCursor.TrainerOverwritesId | cosmos_framework/trainer/__init__.py:215-217 | two ranks, two iterations: the checkpoint restores the right id and the trainer's setting replaces it |
| DataloaderCursor.JointCosmosDataLoaderStateCallback.constructor | cosmos_framework/callbacks/cosmos_dataloader_state.py:165-172 | one fresh inner callback per dataset of the outer loader, under its name |
| DataloaderCursor.JointCosmosDataLoaderStateCallback.UpdateStateFromBatch | cosmos_framework/callbacks/cosmos_dataloader_state.py:179-182 | a batch moves the cursor of the dataset it names and no other, and raises as that dataset's callback does |
| DataloaderCursor.JointCosmosDataLoaderStateCallback.TrainOn | cosmos_framework/trainer/__init__.py:139-190 | one turn: the owner's loader yields, its peers' do not, and every rank's callback sees the batch |
| DataloaderCursor.JointCosmosDataLoaderStateCallback.Train | cosmos_framework/trainer/__init__.py:251-300 | with the ranks fetching in turn, the loop leaves a rank's loader and callbacks in the joint state of the batches seen, and stops at the first turn that raises |
| DataloaderCursor.JointCosmosDataLoaderStateCallback.StateDict | cosmos_framework/callbacks/cosmos_dataloader_state.py:212-216 | collects the outer id and every inner state |
| DataloaderCursor.JointCosmosDataLoaderStateCallback.LoadStateDict | cosmos_framework/callbacks/cosmos_dataloader_state.py:218-224 | restores the outer id, hands every inner callback the entry under its name, and exports exactly the cursors of those entries |
| WorkerStream.FirstItems | cosmos_framework/data/generator/dataflow/distributors.py:58-86 | the stream pops the saved position and reads on behind it: each item is the dataset index the epoch's permutation has at the stream's own place, places follow one another and epochs too; a surplus worker yields nothing and pops nothing |
| WorkerStream.EpochIsPartitioned | cosmos_framework/data/generator/dataflow/distributors.py:78 | in every epoch every dataset index is handed out by exactly one stream at exactly one place |
| WorkerStream.StampGroups | cosmos_framework/data/generator/dataflow/loader.py:62-95 | every group up to the first refused one gets the stamp on each row, and a refused one raises |
| WorkerStream.PassingGroup | cosmos_framework/data/generator/dataflow/loader.py:65-92 | a group the guard lets through is the run of positions from its least one on, each once, stamped with the last |
| WorkerStream.PassesIff | cosmos_framework/data/generator/dataflow/loader.py:76-82 | a group of several passes iff it is a run of positions within one epoch; a single item always passes |
| WorkerStream.GapFreeIff | cosmos_framework/data/generator/dataflow/loader.py:66-92 | for any batcher whose groups pass: what is handed out has no gap after any group iff every group takes the first open position |
| WorkerStream.ReorderedSinglesSkip | cosmos_framework/data/generator/dataflow/loader.py:66-92 | groups of one out of order pass the guard and are stamped past an item not handed out |
| Batchers.SimpleGroups | cosmos_framework/data/generator/dataflow/batchers.py:15-32 | fixed-size groups hand out the stream in order; a size below one raises |
| Batchers.SequentialIsInOrder | cosmos_framework/data/generator/dataflow/batchers.py:24-30 | handing out in order takes the first open position with every group |
| Batchers.BestFitBatch | cosmos_framework/data/generator/dataflow/batchers.py:110-127 | the group is the oldest pooled item followed, unless that is long, by the candidates picked one after the other from what is left, until none is, the size is reached or the pool is empty; with what remains it is the pool |
| Batchers.PoolGroups | cosmos_framework/data/generator/dataflow/batchers.py:77-89 | every group is the best-fit group of the refilled pool, which holds in order the first open items; whatever candidates are picked, it is undelivered and takes the first open position |
| Batchers.PackInOrder | cosmos_framework/data/generator/dataflow/batchers.py:304-350 | groups and single discarded items settle the whole source, each taking the first open position; a group stays below the length limit and within the sample limit, passes over at most `lookahead` items, each of which would have reached the limit, and ends only when a limit, the look-ahead or the source is used up; only items that reach the limit alone are discarded |
| Batchers.PassingOverIsRefused | cosmos_framework/data/generator/dataflow/loader.py:74-90 | a group of several with an item missing between its least and greatest is refused |
| StreamResume.AheadIsLater | cosmos_framework/callbacks/cosmos_dataloader_state.py:87-98 | a cursor is ahead of a stream's settled items iff, cut to its length, it is later than the last of them |
| StreamResume.SessionTracks | cosmos_framework/callbacks/cosmos_dataloader_state.py:87-98 | the cursor at the end of a session restarts the stream behind the items settled iff no row under its id is ahead |
| StreamResume.SessionResumes | cosmos_framework/callbacks/cosmos_dataloader_state.py:87-147 | for a session started at any position: what the rank's worker settled is the stream from there without a gap, and the state restarts it behind that iff no peer's cursor under the same id is ahead |
| StreamResume.JointResumeContinuesStreams | cosmos_framework/data/generator/dataflow/distributors.py:68-86 | after any run, a joint checkpoint and its load, the environment restarts a worker at its first item not settled iff no peer's cursor under the same id is ahead |
| StreamResume.AloneNoPeers | cosmos_framework/trainer/__init__.py:159-164 | a rank that fetches everything itself has no peer ahead |
| StreamResume.BatcherSettles | cosmos_framework/data/generator/dataflow/loader.py:62-92 | the decisions of any batcher that takes the first open position, up to a group handed out, settle the stream in the sense `SessionResumes` asks for, if the guard lets the groups through |
| StreamResume.NothingSkippedNothingTwice | cosmos_framework/data/generator/dataflow/distributors.py:68-86 | the items settled before and those after the restart are together the uninterrupted stream, each once |
| StreamResume.OrderIsKept | cosmos_framework/data/generator/dataflow/distributors.py:68-86 | if the batcher keeps the order they are that stream item by item |
| StreamResume.ContinueStream | cosmos_framework/data/generator/dataflow/distributors.py:58-86 | the distributor, restarted behind what was settled, completes the uninterrupted stream |
| StreamResume.ContextParallelSkips | cosmos_framework/data/generator/dataflow/loader.py:132-136 | two ranks, three batches of one: the second rank restarts one item too far |
| DiffusersRemap.DropsIff | cosmos_framework/inference/diffusers_weights.py:83-85 | a weight path is dropped iff it is not empty and its first folder is neither of the two loaded ones, with either kind of slash |
| DiffusersRemap.ModelPathIff | cosmos_framework/inference/diffusers_weights.py:92-93 | a path is a model weight's iff it lies under one of the two loaded folders |
| DiffusersRemap.OptionalFamilies | cosmos_framework/inference/model.py:264-276 | the key prefixes of the three families a checkpoint may lack |
| DiffusersRemap.KeptIff | cosmos_framework/inference/model.py:99 | a root entry counts unless its key contains the generator's k-norm |
| DiffusersRemap.ToNetKey | cosmos_framework/inference/diffusers_weights.py:106-114 | a dropped path or key has no target, what is returned is the renamed key, loadable and not dropped, and nothing else is refused |
| DiffusersRemap.DiffusersWeightMap | cosmos_framework/inference/model.py:87-111 | root entries win except leaked k-norm ones, the transformer index completes them, and an empty result is an error |
| DiffusersRemap.DiffusersFilesToKeys | cosmos_framework/inference/model.py:114-120 | every key that is not dropped is listed once under its own file and nothing else is |
| DiffusersRemap.NormalizeTargetStateDict | cosmos_framework/inference/model.py:290-298 | fails exactly if two names normalise alike, else holds every entry under its normalised name |
| DiffusersRemap.BuildRemappedStateDict | cosmos_framework/inference/model.py:300-323 | requests exactly the wanted keys for their own targets, or reports an unmapped key or a collision that exists |
| DiffusersRemap.LoadedIsProvided | cosmos_framework/inference/model.py:300-323 | the loaded targets are those some source key fills, and no two source keys collide |
| DiffusersRemap.SetUpPlanner | cosmos_framework/inference/model.py:255-288 | succeeds iff every model weight is mapped, no target has two sources and nothing outside the tolerated families is missing |
| DiffusersRemap.RemapIsSound | cosmos_framework/inference/model.py:114-323 | on success keys map injectively, every target is filled by its own tensor or tolerated, and every requested key is listed once by the reader |
| DiffusersRemap.PrepareLoad | cosmos_framework/inference/model.py:87-323 | index files, partition, normalisation and planner together succeed iff there are sources, each with one place, and every model tensor is fed or excused; then exactly the feeding source keys are requested, each into its own tensor, and read once from its own file; every error has a stated cause |

## Left out

- `save_checkpoint_in_background` and `save_state_dict_worker` are protocol steps, not methods: they run in another process whose interleaving is the point.
- AsyncCheckpoint.DistributedCheckpointer.Save: covers the asynchronous base-class mode; the synchronous branch is `SyncCheckpoint.SyncCheckpointer.Save`.
- CheckpointProgress.CanBeCompleted: that a run can be completed, not that a scheduler completes it; fairness is not modelled.
- ExportThread.NoFailureIsLost: speaks of exceptions the worker stores; one that is not an `Exception` ends the thread without being stored, as in the code.
- DataloaderCursor.JointCosmosDataLoaderStateCallback.LoadStateDict: entries under dataset names are taken to be dictionaries; another value would raise.
- The gates of the export callback (disabled, iteration not due, other model types, other ranks) return before any thread state is touched.
- WorkerStream.FirstItems: saved positions are taken to be at least (0, -1); negative ones would index Python slices from the end.
- DedupLoad.BroadcastStateDict: a collective is one step of all ranks; how ranks wait for each other inside it is not modelled.
- StructuredCaption.ParseUntagged: a response that is itself JSON of another kind is returned as such, hence the condition; `json.loads` failing with an error other than a decode error is not modelled.
- StructuredCaption.ParsePrinted: whether a block holds an object is decided by the reference reader; `json.loads` also takes other blanks and escape sequences, for which `StructuredCaption.ParsePrintedBy` states what holds.
- StructuredCaption.RecoverUntagged: stated for the reference reader, like `StructuredCaption.RecoverTagged`; `StructuredCaption.ParseUntagged` and `StructuredCaption.ParseTagged` state it for any reader.
- MoeCoactivation.CoactivationIsExact: rates are exact reals; float rounding and the max and mean over pairs are not modelled.
- Tensor numerics, model and decoder, CUDA streams, PyTorch DCP internals, process groups, file and S3 transfers, retries and backoff.
- The regular expressions of `diffusers_weights.py`, argument validation, prompt templates, logging and plotting callbacks: branching without invariants across functions.
- Batchers.PackInOrder: takes the sample limit to be positive (with 0 the code never ends) and the source to be finite; over an endless source of items that are all too long the code never yields.
- Batchers.SimpleGroups: the map-style stream never ends, so the last short group and `drop_last` do not occur.
- The token sizes and the candidate choice of the batchers are function parameters; the order in which the loader polls its workers, and that each worker process pops its own copy of the environment, are not modelled.
- `JointCosmosDataLoader` selection by ratio and `RankPartitionedDistributor` allocation: floating-point sampling.
