# Models of verl and streamopd

A Dafny model of the parts of verl and streamopd whose correctness rests on state, interleaving or index arithmetic,
with proofs of what those parts are for. `dafny verify dfyconfig.toml` verifies everything.

* **Weight transfer from trainer to rollout.** `WeightChunks` splits weights into chunks and merges them again;
  `BucketPacking` packs chunks into buckets; `WeightRoundTrip` proves the round trip. `ReadChain` is the
  store-and-forward chain of the NIXL engine as a step system over any number of ranks, `WeightSync` its topology and the
  end-to-end result, `Broadcast` the overlapped broadcast of the NCCL engine. Bytes are written and read one at a time
  between the start and the end of an operation, so that reusing a buffer too early would show.
* **Activation offloading.** `ActivationOffload` is the double-buffering handler, a class proved against relations
  between handler states; `OffloadRuns` follows it through training iterations of any length.
* **Replay buffer.** `ReplayBuffers` is the buffer with its dictionaries; `ReplayRuns` puts trainer, workers and the polling
  thread around it, with snapshots of the shared store that may be arbitrarily late. `SessionAdvantage` is the key
  format and the advantage scatter that depends on it.
* **Checkpoint resharding.** `QkvLayout` (fused attention weights), `PipelineShards` (layers per stage) and
  `LayerNumbering` (renumbering of layers, numbering of files).
* **Batches and windows.** `VisionBatching` (the batching loop) and `VisionResult` (which frames' embeddings end up in which
  chunk), `BatchContainer`, `RecentWindow` and `GroupStatistics`.

`Outcomes`, `Arithmetic`, `Sequences` and `TensorOps` (cutting tensors and arrays as torch and numpy do) are shared. Exceptions and failed assertions are values of `Outcomes.Error`.

Some properties that one would like to have do not hold of the code. For each there is an input that shows it, and the
exact condition under which the code does what it should:

* A weight may end up at an offset that its element size does not divide, and is then not viewable
  (`WeightRoundTrip.MixedTypesMisalign`); the round trip holds if and only if the offsets are aligned
  (`WeightRoundTrip.RoundTrip`). Weights without bytes yield no chunk and do not arrive.
* With a single rollout worker the lists of the topology have the wrong lengths; with two or more they are one chain
  (`WeightSync.TopologyIsChain`, both directions).
* A matrix and its transpose share storage and type: offloaded together, one of them comes back with the content of the other
  (`OffloadRuns.TransposeComesBackWrong`). Offloading restores a group if and only if tensors of the group that share
  storage and type have the same content (`OffloadRuns.RestoredIffAliasFree`).
* A validation batch may contain outputs of an earlier batch that have been cleared (`ReplayRuns.ValidationRepeats`). It
  does not if and only if no snapshot holding an output of the step has been added after the last removal of that output
  (`ReplayRuns.ValidationSampleComplete`), for instance if outputs are only removed while no snapshot in flight holds
  them (`ReplayRuns.SettledDropsSuffice`).
* There are layer and stage counts without a pipeline split (`PipelineShards.FiveOnFour`);
  `PipelineShards.DynamicPipelineShards` states exactly which.
* A stage without layers uses up a layer number (`LayerNumbering.EmptyStageLeavesGap`): numbers are dense if and only if no
  such stage precedes one with layers (`LayerNumbering.NumbersDense`). No parameter is overwritten in either case
  (`LayerNumbering.NothingOverwritten`).
* A vision batch is accepted when the totals of tokens and embeddings agree, and a chunk may then get embeddings of another
  chunk's frames (`VisionResult.TotalsDoNotSuffice`). All chunks get their own encoding if and only if in every accepted
  batch tokens and embeddings agree for the frames of each chunk (`VisionResult.BatchedRightIff`).
* With padding enabled, five rows cannot be cut into four chunks (`BatchContainer.FiveInFour`); `BatchContainer.ChunksConcat`
  states on sizes when chunking succeeds.
* Frame indices that go back put frames out of order (`RecentWindow.GoingBack`); chunks give back the frames in order if
  and only if chunk indices never decrease (`RecentWindow.InOrderIff`).

## Model

| member | source | states |
|---|---|---|
| WeightChunks.SplitWeightChunks | verl/verl/checkpoint_engine/base.py:495-521 | the generator's loops yield the chunk stream that the lemmas below are about |
| WeightChunks.SplitAllShape | verl/verl/checkpoint_engine/base.py:507-521 | every chunk is non-empty and at most a bucket, names its weight, and is a full bucket unless it is the last of its weight |
| WeightChunks.MergeWeightChunks | verl/verl/checkpoint_engine/base.py:524-563 | the loop over a buffer written slice by slice equals the step-by-step merge, all assertions included, for any chunk stream |
| WeightChunks.MergeLargeTail | verl/verl/checkpoint_engine/base.py:547-563 | from any chunk of a large weight on, the rest completes it with exactly its bytes, wherever the chunks were placed |
| WeightChunks.MergeAfterSplit | verl/verl/checkpoint_engine/base.py:507-563 | merging the split chunks, placed at any offsets, gives all weights that have bytes back in order if the placement is aligned, and raises otherwise |
| WeightChunks.MergeIsSound | verl/verl/checkpoint_engine/base.py:536-563 | any stream merged without an error is the chunks of the merged weights one after the other, adjacent and under one name each, and then at most chunks of one unfinished weight |
| BucketPacking.SendWeights | verl/verl/checkpoint_engine/nccl_checkpoint_engine.py:244-293 | the loop over two swapped buffers sends exactly the greedy packing; both its assertions hold, and a buffer filled before does not leak into a later bucket |
| BucketPacking.AddToBucket | verl/verl/checkpoint_engine/nccl_checkpoint_engine.py:273-279 | one chunk is appended to bytes and metadata, the rest of the buffer is untouched |
| BucketPacking.NameNotInBucket | verl/verl/checkpoint_engine/nccl_checkpoint_engine.py:274 | no two chunks of one weight share a bucket |
| BucketPacking.PackIsPlacement | verl/verl/checkpoint_engine/nccl_checkpoint_engine.py:248-279 | packing loses, repeats and reorders nothing: it only assigns offsets |
| BucketPacking.PackLaid | verl/verl/checkpoint_engine/nccl_checkpoint_engine.py:248-279 | in every bucket the chunks follow one another within the bucket size |
| BucketPacking.UnpackPacked | verl/verl/checkpoint_engine/nccl_checkpoint_engine.py:345-361 | slicing a packed bucket by its metadata gives the chunks that went in; slices are disjoint and in bounds |
| WeightRoundTrip.RoundTrip | verl/verl/checkpoint_engine/base.py:507-563 | split, pack, unpack, merge is the identity on names, shapes, types, bytes and order of the non-empty weights if and only if the offsets are aligned |
| WeightRoundTrip.UniformRoundTrip | verl/verl/checkpoint_engine/base.py:541-546 | with one item size that divides the bucket size all offsets are aligned and the round trip always succeeds |
| WeightRoundTrip.MixedTypesMisalign | verl/verl/checkpoint_engine/base.py:543 | two small weights of different item sizes for which the view raises |
| WeightRoundTrip.PackingBound | verl/verl/checkpoint_engine/nccl_checkpoint_engine.py:248-293 | B buckets of size S for T bytes: B*S <= 2T + S, none empty unless there is nothing to send, all bytes sent once and in order |
| ReadChain.InitInv | verl/verl/checkpoint_engine/nixl_checkpoint_engine.py:371-392 | the state before sending satisfies the invariant |
| ReadChain.StepKeeps | verl/verl/checkpoint_engine/nixl_checkpoint_engine.py:385-519 | every step of any rank or of the transfer engine keeps the invariant |
| ReadChain.StepSafe | verl/verl/checkpoint_engine/nixl_checkpoint_engine.py:399-433 | no buffer is written while the next rank may still read it or its owner still yields from it; every notice carries the expected key |
| ReadChain.YieldsPrefix | verl/verl/checkpoint_engine/nixl_checkpoint_engine.py:485-515 | what a rank has yielded is a prefix of what rank 0 packed, all of it once the rank is done |
| ReadChain.Progress | verl/verl/checkpoint_engine/nixl_checkpoint_engine.py:456-519 | in every unfinished state that satisfies the invariant some step is possible |
| ReadChain.StepWorks | verl/verl/checkpoint_engine/nixl_checkpoint_engine.py:143-234 | every step lowers a natural measure |
| ReadChain.ChainSafety | verl/verl/checkpoint_engine/nixl_checkpoint_engine.py:371-519 | safety and prefix property in every run, for any number of ranks, any buckets and any interleaving |
| ReadChain.ChainProgress | verl/verl/checkpoint_engine/nixl_checkpoint_engine.py:371-519 | runs are bounded; a run that cannot continue has finished all ranks; finished ranks have yielded everything |
| WeightSync.TopologyIsChain | verl/verl/checkpoint_engine/nixl_checkpoint_engine.py:289-305 | ranks 0..n are linked into one path, other trainers to nothing, if and only if there are two or more rollout workers |
| WeightSync.EveryRankLoadsTheWeights | verl/verl/checkpoint_engine/nixl_checkpoint_engine.py:436-519 | every rollout rank that is done has merged exactly the trainer's weights, and every run ends with all ranks done |
| Broadcast.ActKeeps | verl/verl/checkpoint_engine/nccl_checkpoint_engine.py:244-361 | every step of the sender, a receiver or an operation keeps the invariant |
| Broadcast.BroadcastSafety | verl/verl/checkpoint_engine/nccl_checkpoint_engine.py:80-99 | in every run the sender never fills a buffer in flight, each operation of a receiver takes the metadata of the bucket it receives, no receiver yields from a buffer being received, and yields have the content of the launch |
| Broadcast.BroadcastProgress | verl/verl/checkpoint_engine/nccl_checkpoint_engine.py:281-361 | runs are bounded, end with all sides finished, and every receiver has yielded every bucket |
| Broadcast.EveryReceiverLoadsTheWeights | verl/verl/checkpoint_engine/nccl_checkpoint_engine.py:296-361 | every receiver that has stopped has merged exactly the trainer's weights |
| ActivationOffload.OffloadHandler.constructor | verl/verl/utils/activation_offload.py:228-257 | the loop with its running constant gives the closed form of the window map |
| ActivationOffload.OffloadHandler.TensorPush | verl/verl/utils/activation_offload.py:263-283 | new state, returned tag, and when it raises |
| ActivationOffload.OffloadHandler.TensorPop | verl/verl/utils/activation_offload.py:285-296 | the saved tensor is returned and forgotten, or the exact condition of the assertions |
| ActivationOffload.OffloadHandler.BulkOffloadGroup | verl/verl/utils/activation_offload.py:298-317 | all tensors of the group and no others are replaced by keys; a copy of some tensor with each key is kept |
| ActivationOffload.OffloadHandler.BulkReloadGroup | verl/verl/utils/activation_offload.py:355-371 | the group's tensors are recovered in their shapes and the copies dropped; raises exactly if a key is missing or a size differs |
| ActivationOffload.OffloadHandler.CloseWindow | verl/verl/utils/activation_offload.py:328-345 | at the end of a window buffers are freed, the next group offloaded, the counter advanced |
| ActivationOffload.OffloadHandler.OnGroupCommitForward | verl/verl/utils/activation_offload.py:319-353 | the forward commit relation, and exactly when it raises |
| ActivationOffload.OffloadHandler.OnGroupCommitBackward | verl/verl/utils/activation_offload.py:373-395 | the backward commit function, and exactly when it raises |
| OffloadRuns.WindowBounds | verl/verl/utils/activation_offload.py:245-257 | window i closes no earlier than group i is complete, the last one with the last layer |
| OffloadRuns.WindowAllButOne | verl/verl/utils/activation_offload.py:245-257 | with one group less than layers, group i leaves with layer i + 1 |
| OffloadRuns.WindowsShareOut | verl/verl/utils/activation_offload.py:245-257 | the windows share out all layers, evenly, no group having more than an earlier one |
| OffloadRuns.Transparency | verl/verl/utils/activation_offload.py:263-395 | for all 1 <= groups <= layers and any number of iterations: nothing raises, each pop returns what was pushed under the tag, each finished iteration leaves the initial handler |
| OffloadRuns.RestoredIffAliasFree | verl/verl/utils/activation_offload.py:307-311 | offload followed by reload restores a group if and only if tensors with the same key have the same content |
| OffloadRuns.TransposeComesBackWrong | verl/verl/utils/activation_offload.py:35-37 | a matrix and its transpose in one group: whichever was copied, the other one is popped with its content, and nothing raises |
| OffloadRuns.Residency | verl/verl/utils/activation_offload.py:319-345 | set up with one group less than layers, at most two groups are on the device at any point of any run |
| ReplayBuffers.ReplayBuffer.Add | verl/verl/trainer/main_ppo_sync.py:224-236 | field-wise merge of the tags into the partition, nothing else changes |
| ReplayBuffers.ReplayBuffer.Remove | verl/verl/trainer/main_ppo_sync.py:238-249 | exactly the given keys leave the partition |
| ReplayBuffers.ReplayBuffer.Sample | verl/verl/trainer/main_ppo_sync.py:251-283 | the argument assertion, and one look at the partition; looking creates it |
| ReplayBuffers.ReplayBuffer.Look | verl/verl/trainer/main_ppo_sync.py:268-283 | ready with exactly the successes of the step, without repeats; wait only for a running entry; raise only for an entry that lacks step or status |
| ReplayBuffers.BatchSizeGivesNothing | verl/verl/trainer/main_ppo_sync.py:263-283 | the mode with a batch size always returns an empty batch at once |
| ReplayRuns.StepKeeps | verl/verl/trainer/main_ppo_sync.py:210-283 | dispatch, put, end mark, snapshot, late addition, sample, clear, removal and next step keep the invariant |
| ReplayRuns.SampleNeverRaises | verl/verl/trainer/main_ppo_sync.py:268-283 | over all interleavings no entry read lacks step or status, and sample waits exactly while a prompt of the step is not known to have ended |
| ReplayRuns.SampleContents | verl/verl/trainer/main_ppo_sync.py:268-283 | a sample is taken only after all prompts of the step have ended; if they all finished it is what was published and not cleared, plus the stale entries |
| ReplayRuns.TrainSampleComplete | verl/verl/trainer/main_ppo_sync.py:341-366 | with increasing steps a sample whose prompts all finished is exactly the outputs published for the step |
| ReplayRuns.BackIffAddedLate | verl/verl/trainer/main_ppo_sync.py:210-249 | a removed output is in the buffer again if and only if a snapshot that holds it was added after its last removal |
| ReplayRuns.StaleIffAddedLate | verl/verl/trainer/main_ppo_sync.py:210-249 | between batches the stale entries of a step are exactly the outputs brought back in this way |
| ReplayRuns.ValidationSampleComplete | verl/verl/trainer/main_ppo_sync.py:862-955 | with a repeated step number the sample is what was published and not cleared if and only if the run has added no snapshot with an output of the step after its last removal |
| ReplayRuns.SettledDropsSuffice | verl/verl/trainer/main_ppo_sync.py:238-283 | if outputs are only removed while no snapshot in flight holds them, every such sample is what was published and not cleared |
| ReplayRuns.ValidationRepeats | verl/verl/trainer/main_ppo_sync.py:862-955 | a run in which a snapshot added late brings a cleared output into the next validation batch |
| ReplayRuns.SampleGetsReady | verl/verl/trainer/main_ppo_sync.py:210-222 | once all prompts of the step have ended, the next snapshot ends the waiting |
| SessionAdvantage.FieldsOfName | verl/verl/trainer/main_ppo_sync.py:156-158 | splitting from the right inverts the key format for every uid, underscores included |
| SessionAdvantage.FieldsAre | verl/verl/trainer/main_ppo_sync.py:156-158 | the fields of any string are its parts around the last two underscores; there are three exactly if it has two underscores |
| SessionAdvantage.NamesDiffer | verl/verl/trainer/main_ppo_sync.py:411 | different outputs have different keys |
| SessionAdvantage.NameParts | verl/verl/trainer/main_ppo_sync.py:156-159 | two keys are of one session if and only if uid and session number agree, and the index is read back |
| SessionAdvantage.ReadRow | verl/verl/trainer/main_ppo_sync.py:156-159 | session and index of a key, and which error a malformed key raises |
| SessionAdvantage.FindFinalSessions | verl/verl/trainer/main_ppo_sync.py:152-162 | the dictionary holds the row of largest index of each session, sessions in the order in which they are met; the first malformed key decides the error |
| SessionAdvantage.SelectFinals | verl/verl/trainer/main_ppo_sync.py:164-169 | the selected rows in insertion order, and where each session is found among them |
| SessionAdvantage.PickedSelected | verl/verl/trainer/main_ppo_sync.py:164-170 | the selection has exactly one row per session, its final one |
| SessionAdvantage.AdvantageForSessions | verl/verl/trainer/main_ppo_sync.py:141-191 | for every row i and position t, the result is masks[i][t] times the advantage that the final row of i's session, of the largest index there, has at the first position where that row's mask is largest; masked positions are 0; which error is raised |
| SessionAdvantage.FinalWhateverOrder | verl/verl/trainer/main_ppo_sync.py:155-162 | the final row of a session is the same key in whatever order the rows come |
| QkvLayout.FusedAt | verl/scripts/converter_hf_to_mcore.py:155-161 | where each query, key and value row ends up |
| QkvLayout.SplitFused | verl/scripts/converter_hf_to_mcore.py:155-161 | splitting undoes fusing |
| QkvLayout.FuseSplit | verl/verl/model_merger/megatron_model_merger.py:330-354 | fusing undoes splitting |
| TensorOps.ExactChunk | verl/verl/model_merger/megatron_model_merger.py:343-344 | when the count divides the rows, chunk gives as many equal parts |
| TensorOps.ChunkSizesAre | verl/verl/protocol.py:880 | the first chunk has the least number of rows with which the chunks asked for could hold all; every chunk but the last has as many, the last at least one |
| QkvLayout.SplittableIff | verl/verl/model_merger/megatron_model_merger.py:334-351 | the computed split sizes fit all chunks if and only if the tensor consists of whole groups |
| QkvLayout.SplitTensors | verl/verl/model_merger/megatron_model_merger.py:330-354 | the loop succeeds exactly on whole groups and then gives the three parts |
| QkvLayout.MergeAcrossTp | verl/scripts/legacy_model_merger.py:529-557 | the nested loops give the parts of all chunks of all slices; exactly when they raise, and when it is an assertion |
| QkvLayout.TpSizes | verl/scripts/legacy_model_merger.py:537-550 | the sizes computed from the first slice are those of whole groups |
| QkvLayout.TpMergeIsSplit | verl/scripts/legacy_model_merger.py:529-557 | merging equal row slices of a fused tensor is splitting the tensor |
| QkvLayout.TpMergeOfFused | verl/scripts/legacy_model_merger.py:529-557 | merging the slices of a fused tensor gives the weights that were fused |
| QkvLayout.MergeOfFused | verl/scripts/legacy_model_merger.py:529-557 | on the slices of a fused weight, with the head counts of its configuration, the merger succeeds and gives the weights that were fused |
| PipelineShards.DynamicPipelineShards | verl/verl/model_merger/megatron_model_merger.py:57-98 | for three or more stages, with q = layers / stages rounded up: it succeeds exactly if q for each stage in between leaves two layers; then all of those have q, and the first and last share the rest, the last taking an odd layer; the list has one positive entry per stage and the right sum; the other cases and both errors |
| PipelineShards.AcceptedIff | verl/verl/model_merger/megatron_model_merger.py:83-87 | m is accepted if and only if L <= m*p and m*(p-2) <= L-2 |
| PipelineShards.BestCandidate | verl/verl/model_merger/megatron_model_merger.py:81-92 | the accepted sizes, if any, start with the rounded quotient |
| PipelineShards.FirstIsBest | verl/verl/model_merger/megatron_model_merger.py:94-96 | the first accepted size is the most even one, so the sort picks it |
| PipelineShards.ShardsAreEven | verl/verl/model_merger/megatron_model_merger.py:57-98 | the shards are positive, sum to the layers, and no division has a smaller maximum |
| PipelineShards.FiveOnFour | verl/verl/model_merger/megatron_model_merger.py:81-96 | five layers on four stages have no candidate, although they can be divided |
| LayerNumbering.MergeStateDicts | verl/scripts/legacy_model_merger.py:608-658 | the dictionary: layers of an earlier virtual rank, and within one of an earlier pipeline rank, have smaller numbers; every layer parameter is there with its own value, every other one under its name with its last value, nothing else; and if the stages of a model were handed out in this order, every parameter is under its layer's number |
| LayerNumbering.StagesApart | verl/scripts/legacy_model_merger.py:613-656 | layers of different stages get different numbers, in the order of the stages, whatever the stages hold |
| LayerNumbering.EndIsOffset | verl/scripts/legacy_model_merger.py:613-656 | the running layer count at a stage is the start plus the layers handled before it |
| LayerNumbering.NothingOverwritten | verl/scripts/legacy_model_merger.py:613-658 | with distinct layer keys in each stage, the merged dictionary has every layer parameter of every stage, with its own value, under its shifted number |
| LayerNumbering.OthersKept | verl/scripts/legacy_model_merger.py:618-641 | a parameter outside the layers keeps its name and has the value of its last occurrence |
| LayerNumbering.NumbersDense | verl/scripts/legacy_model_merger.py:613-656 | the numbers are exactly 0..total-1 if and only if no empty stage precedes a non-empty one |
| LayerNumbering.MergeOfStages | verl/verl/model_merger/megatron_model_merger.py:358-418 | merging the stages that the converter cuts numbers all layers as in the model they came from |
| LayerNumbering.EmptyStageLeavesGap | verl/scripts/legacy_model_merger.py:613-656 | layer counts 1, 0, 1 give the layers 0 and 2 |
| LayerNumbering.LayersRestored | verl/verl/model_merger/megatron_model_merger.py:358-418 | and every parameter of every layer of that model is in the merged dictionary with its value |
| TensorOps.SplitIsPartition | verl/verl/model_merger/megatron_model_merger.py:439-445 | the sections are as many as asked for and contain all keys in order |
| TensorOps.SplitSizes | verl/verl/model_merger/megatron_model_merger.py:440 | each section has the size that array_split documents |
| TensorOps.SplitIsEven | verl/verl/model_merger/megatron_model_merger.py:440 | sections never grow with their number, and no two differ by more than one |
| LayerNumbering.SaveIndexes | verl/verl/model_merger/megatron_model_merger.py:430-457 | the files of one rank, one per layer, or two from 30 layers on, numbered on from those of the ranks before; they hold the rank's keys in order, evenly; with distinct keys the index leads to the file of every key, the first key being in the first file; a rank without layers raises |
| LayerNumbering.FileOfKey | verl/verl/model_merger/megatron_model_merger.py:448-457 | with distinct keys the index leads to the file that a key was written to |
| LayerNumbering.EveryKeyInOneFile | verl/verl/model_merger/megatron_model_merger.py:439-465 | with keys distinct and on one rank each, the index gathered from all ranks has every key, and leads to the one file of all ranks that holds it |
| LayerNumbering.SaveAllRanks | verl/verl/model_merger/megatron_model_merger.py:425-465 | the files of all ranks are numbered 0, 1, 2 and so on, layers of them or twice as many from 30 layers on; they hold all keys in order, and with distinct keys the gathered index leads to the file of every key and has no other |
| LayerNumbering.FilesApart | verl/verl/model_merger/megatron_model_merger.py:437-453 | no two files of any ranks have the same number |
| LayerNumbering.FilesCover | verl/verl/model_merger/megatron_model_merger.py:430-453 | every number below the total is the number of some rank's file |
| LayerNumbering.FilesWithin | verl/verl/model_merger/megatron_model_merger.py:430-453 | no file number reaches the total |
| VisionBatching.EncodeBatched | streamopd/streaming/qwen3_5.py:151-242 | for any per-frame encoder and batch size, fast and fallback batches mixed: what every chunk gets, and that it is its own encoding for all chunks if and only if the fast batches agree chunk by chunk |
| VisionBatching.CutBatch | streamopd/streaming/qwen3_5.py:219-224 | cutting a batch appends to every chunk the pieces at its frames' offsets and their grids |
| VisionBatching.EncodeGroups | streamopd/streaming/qwen3_5.py:205-212 | the fallback appends to every chunk the encoding of its own frames of the batch |
| VisionResult.BatchedRightIff | streamopd/streaming/qwen3_5.py:199-224 | all chunks get the embeddings of their own frames if and only if, in every batch that passes the test of totals, tokens and embeddings agree for the frames of each chunk |
| VisionResult.PartsRight | streamopd/streaming/qwen3_5.py:219-224 | sufficiency: agreement chunk by chunk puts every cut between chunks in the right place |
| VisionResult.LengthsForceAgreement | streamopd/streaming/qwen3_5.py:219-224 | necessity: if every chunk gets as many embeddings as its frames have, all fast batches agree chunk by chunk |
| VisionResult.FramesSuffice | streamopd/streaming/qwen3_5.py:199-202 | a batch whose counts agree frame by frame agrees chunk by chunk |
| VisionResult.TotalsDoNotSuffice | streamopd/streaming/qwen3_5.py:203-204 | two chunks of one frame with equal totals: the first gets two of its three embeddings |
| VisionResult.FramesOfFlat | streamopd/streaming/qwen3_5.py:161-164 | flattening loses no frame and keeps the order within a chunk |
| VisionResult.BatchesAreFull | streamopd/streaming/qwen3_5.py:178-181 | every batch but the last one is full, and none is empty |
| VisionResult.TokensAre | streamopd/streaming/qwen3_5.py:199-202 | a frame has one token at least, and otherwise as many as there are whole areas in its grid |
| VisionResult.FramePiece | streamopd/streaming/qwen3_5.py:218-224 | frame k takes as many embeddings as it has tokens, from behind those of the frames before it |
| BatchContainer.Pad | verl/verl/protocol.py:74-99 | padding ends, makes the size a multiple of the divisor, and row i is row i mod n of the original in every column |
| BatchContainer.UnpadPadded | verl/verl/protocol.py:102-106 | unpadding undoes padding |
| BatchContainer.ChunksConcat | verl/verl/protocol.py:864-903 | chunking succeeds if and only if padding is enabled or the size divides, and without tensors or with rows that ceil(rows / ceil(rows / chunks)) == chunks fills; then all columns are cut alike and the chunks concatenate to the batch |
| BatchContainer.FiveInFour | verl/verl/protocol.py:873-886 | with padding enabled, five rows of tensors in four chunks raise |
| BatchContainer.EvenChunks | verl/verl/protocol.py:873-901 | an even division never raises, and chunk i is the i-th run of size / chunks rows in every column |
| BatchContainer.ChunkRows | verl/verl/protocol.py:879-893 | however it divides: with tensors all chunks but the last are of one size, the last not larger and not empty; without, sizes never grow and differ by at most one |
| BatchContainer.ConcatParts | verl/verl/protocol.py:914-934 | consecutive parts concatenate to the whole |
| BatchContainer.FutureChunks | verl/verl/protocol.py:1197-1228 | what all chunks of a future give concatenates to what the future gives, if the size divides evenly; otherwise none gives anything |
| RecentWindow.DecodeToChunks | streamopd/streaming/recent_window.py:536-564 | the chunks are in order of time; each has exactly the frames, in order, whose time is from start up to start plus duration; it ends there or when the latest frame has been shown for as many raw frames as lie between the last two, at least one; every frame is in one |
| RecentWindow.FrameInItsChunk | streamopd/streaming/recent_window.py:545-550 | every frame is in exactly the chunk of its index |
| RecentWindow.TimeInItsChunk | streamopd/streaming/recent_window.py:536-562 | start <= timestamp < end for every frame of a chunk |
| RecentWindow.InOrderIff | streamopd/streaming/recent_window.py:545-563 | the chunks in order are the decoded frames if and only if chunk indices never decrease |
| RecentWindow.GoingBack | streamopd/streaming/recent_window.py:545-563 | frame indices 1, 0 at one frame per second and chunk: the chunks give the frames back in reverse |
| RecentWindow.TimeOrder | streamopd/streaming/recent_window.py:545-548 | they do not when frame indices do not |
| RecentWindow.RecentSize | streamopd/streaming/recent_window.py:585-589 | the window is the last max(1, n) chunks, all if there are fewer; an error exactly without chunks |
| RecentWindow.RecentFrames | streamopd/streaming/recent_window.py:588-592 | a frame is in the window exactly if fewer than max(1, n) chunks of the video are later than its own |
| RecentWindow.QueryRecentWindow | streamopd/streaming/recent_window.py:585-596 | from frame indices to what the model is asked about: exactly those frames, by chunk and position, and the indices of their chunks; an error exactly without frames |
| RecentWindow.RecentIsSuffix | streamopd/streaming/recent_window.py:585-592 | if frame indices do not go back, the frames of the window are a non-empty suffix of the video |
| GroupStatistics.IndexAdd | verl/verl/utils/groupwise.py:205-209 | accumulation by index gives the sum of each group |
| GroupStatistics.CountsAddUp | verl/verl/utils/groupwise.py:205 | the counts of all groups add up to the number of scores |
| GroupStatistics.TwoPass | verl/verl/utils/groupwise.py:206-211 | centred scores of a group sum to zero, their squares to sum2 - sum^2/count |
| GroupStatistics.VarianceIs | verl/verl/utils/groupwise.py:208-211 | the documented variance formula is the sum of squared deviations over count - 1 |
| GroupStatistics.GroupMeanStd | verl/verl/utils/groupwise.py:164-222 | mean, count and deviation of every group, the deviation being the root of the sum of squared deviations over count - 1, or of the floor; singleton fallback; the length error |

## Left out

- The Mooncake, Kimi and HCCL engines, ZeroMQ and NIXL themselves, CUDA streams and their synchronisation; messages, notices
  and collectives are reliable and FIFO.
- Subscribers that connect after the first publication, or messages dropped at a high-water mark.
- Transfers that fail, processes that exit, agents that are added or removed during a transfer.
- Notify keys of the chain are random in the source; the model takes the bucket number, which is as fresh.
- WeightChunks.MergeWeightChunks: a chunk stream in which chunks of one weight disagree about its shape leaves part of the
  weight unwritten in the source; the model then yields the part that was written.
- The consumers of yielded weights (loading into the inference engine).
- More offload groups than layers, which the handler's own comment forbids.
- Pinned memory, and the addresses of tensors that have been reloaded; the model keeps the old key, which nothing reads
  after a pop.
- The synchronous base handler, checkpointing inside the activation handler and the choice of tensors to be offloaded.
- ReplayBuffers.ReplayBuffer.Sample: one look of the waiting loop is modelled, not the sleep between looks; entries
  are looked at in any order, so the order of the keys in a batch is not stated, nor which of an exception and a wait comes
  first when both are possible.
- Partitions of the replay buffer are independent; the runs follow one of them. Snapshots and batch puts are atomic.
- Fields of tags other than the step and the status; the tensors stored under the keys.
- SessionAdvantage.AdvantageForSessions: the estimator is any function that gives a row of advantages for each selected row;
  estimators other than GRPO are delegated unchanged. An index is read as decimal digits; Python's int also accepts
  signs, spaces and underscores.
- Merging of gate and up projections, experts, embeddings and norms across tensor-parallel ranks, and the name tables.
- LayerNumbering.MergeStateDicts: a layer's parameters are names with values; the entries that a fused weight splits
  into count as one.
- LayerNumbering.SaveIndexes: files are known by their number; the total in a file name, the merge on a single rank and the
  total size are left out.
- Rounding, data types and devices. Sums, means and timestamps are real numbers; the square root is any function.
- VisionBatching.EncodeBatched: the encoder works frame by frame, so the test on the number of grids never fails.
- Metadata of batches (meta_info), reordering, repetition, unions and padding with a chosen row.
- BatchContainer.ConcatParts: concatenation is modelled for batches with the same columns.
- Decoding, resizing and sampling of videos; answers and scores.
