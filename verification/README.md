# TorchStore simulator: a Dafny model

A model of the deterministic TorchStore simulator and proofs of what it promises. Each component is
given twice: as values and functions, about which whole runs are reasoned, and, where the source
updates things in place, as a class or loop whose contract ties it to those functions. The `…Events`
modules say what whole runs come to in terms of what was asked of the component alone. Time and
bytes are exact reals, and every stretch of code between two suspensions is one event.

| files | what they model |
|---|---|
| `Basics`, `Sorting` | sums, least elements, quotients, the order of strings; sorted insertion and stable sorting |
| `Progressive`, `ProgressiveRuns`, `FairSharing`, `Serial`, `Makespan`, `Channels` | bandwidth sharing: the equal-share and the FIFO channel |
| `Retention`, `Volume`, `VolumeEvents`, `VolumeService` | the bounded storage volume and its recency ranking |
| `Decode`, `DecodeRuns`, `DecodeOutcomes`, `DecodeEvents`, `DecodeEngines` | the batched decode engine |
| `Accelerator`, `AcceleratorEvents`, `Accelerators` | one accelerator's occupancy and its prefill queue |
| `Dispatch`, `DispatchEvents`, `Dispatchers` | the dispatcher and its gates |
| `AsyncLoop`, `AsyncEvents`, `AsyncEngines`, `SimEngine`, `SimEvents`, `Sims` | the virtual-clock event loop, the callback engine and its promises |
| `Selectors`, `Ordering`, `SchedulerChains` | the selector algebra and the scheduler's chains |
| `Routing`, `RoutingEvents` | the route-once protocol |
| `Prefixes`, `Workload`, `Generator` | prefix-hash chains and the multi-turn workload |
| `Serving` | block counts of a served prefill, planned or evicted |
| `FetchGraph`, `FetchLines`, `Pictures` | the fetch-graph renderer |
| `Shards` | shard bounds |

`dafny verify dfyconfig.toml` checks the whole project.

## Where the code and what it says differ

The model follows the code. Each of these is proved with the exact condition.

- A refused put leaves its rewritten residents' new values under their old byte counts, and with a
  directory it has by then evicted every other key (`Volume.RefusedPutAgreesIff`,
  `Volume.RefusedOverwriteDisagrees`, `Volume.RefusedPutEmptiesVolume`).
- Decode slots are said always to free; with `max_batch <= 0` a request that needs one waits forever
  (`DecodeOutcomes.IdleAnswersAllIff`, `DecodeOutcomes.NoSlotNoAnswer`).
- Rooting a chain at the model id is said to keep two models apart; it does unless one id continues
  the other by whole segments (`Prefixes.RootsAliasIff`).
- A graph whose nodes each serve at most one is drawn inline as a simple path; when a root leads into
  a loop that never ends (`FetchGraph.InlineEndsIff`, `FetchGraph.RhoNeverEnds`).
- The abstention is called the identity of `otherwise`; on the right it replaces another empty
  selection by itself (`Selectors.AbstainIsIdentity`, `Selectors.KeyedNobodyIsReplaced`), and a cut
  given a repeated source answers with it repeated (`Selectors.OnlyCuts`,
  `Selectors.RepeatedCutRepeats`).
- One hop is not enough for a request that is moved: its booking and its memo then stay behind
  (`Routing.FailsIffOutOfHops`, `Routing.OneHopStrands`, `Routing.FailedStaysBehind`).
- A turn's message is said to be shared with nothing. Without query blocks nothing else tells the
  later turns of two dialogues of one rank apart, and they have the same keys
  (`Workload.TurnsShareIff`, `Workload.SecondTurnsAlias`).
- A workload whose prompts and generations have no block at all fails as soon as a dialogue has a
  second turn: there is no key to continue from (`Generator.MakeWorkload`, `Generator.ReturnsIff`,
  `Generator.NothingToContinue`).

## Model

| member | source | states |
|---|---|---|
| `ProgressiveRuns.EveryRunKeepsInv` | sim_common/resources.py:171-222 | after any registrations and firings every active transfer has one live timer at `lastUpdate + remaining / rate` with `rate = capacity / k`, no timer is overdue, and no transfer has finished before `start + latency + nbytes / capacity` |
| `ProgressiveRuns.StepKeepsInv` | sim_common/resources.py:171-222 | one registration or one firing of the earliest timer keeps all of that |
| `ProgressiveRuns.ClampNeverDiscards` | sim_common/resources.py:179-188 | up to the next timer the debit is exactly what moved: the clamp at zero throws no bytes away |
| `ProgressiveRuns.CompletesAtZero` | sim_common/resources.py:212-222 | the transfer whose completion timer fires has exactly nothing left, and the timer is its own |
| `ProgressiveRuns.JoinKeeps` | sim_common/resources.py:205-210 | entering takes what moved off everyone else, leaves the entrant all its bytes and re-times all |
| `ProgressiveRuns.LeaveKeeps` | sim_common/resources.py:212-222 | leaving takes what moved off everyone else, and the leaver had exactly that left |
| `ProgressiveRuns.RecomputeTimes` | sim_common/resources.py:190-203 | re-rating leaves each active transfer one live timer where its bytes and the new share say |
| `Progressive.RetimeOne` | sim_common/resources.py:198-203 | cancel and reschedule replaces one timer and touches no other transfer or latency timer |
| `Progressive.RetimeAllExact` | sim_common/resources.py:198-203 | the reschedule loop gives every transfer one live timer, numbered in `seq` order |
| `FairSharing.EveryRunIsFair` | sim_common/resources.py:151-222 | every run of a new channel is one that a reference machine accepts from rest, which only knows virtual service: bytes left are tag minus service, and a transfer leaves exactly when served its own bytes |
| `FairSharing.EqualService` | sim_common/resources.py:190-222 | two transfers active at both ends of any run moved equal bytes |
| `FairSharing.NeverOvertaken` | sim_common/resources.py:190-222 | a transfer with no more bytes left than another never finishes after it |
| `FairSharing.DoneStays` | sim_common/resources.py:212-222 | a completion is once and for all, at the instant it happened |
| `FairSharing.FireMoves` | sim_common/resources.py:205-222 | one firing moves the same bytes off every active transfer, and whoever leaves had exactly those |
| `Makespan.WorkConserved` | sim_common/resources.py:179-203 | while any transfer is active the summed remaining bytes fall at exactly `capacity` |
| `Makespan.FireSpends` | sim_common/resources.py:205-222 | a firing takes from all outstanding bytes, warming ones included, what the capacity moves while anyone is active |
| `Makespan.AllComplete` | sim_common/resources.py:171-222 | with nobody new, every transfer registered completes |
| `Makespan.BurstEnds` | sim_common/resources.py:190-222 | transfers registered together, however re-rated, end after exactly total / capacity |
| `Makespan.SameMakespan` | sim_common/resources.py:134-222 | for zero-latency transfers of equal capacity registered together a new equal-share channel and a new serialize channel, each run until it is out of transfers, finish at the same instant, the sum of the solo costs |
| `Makespan.AloneCostsSolo` | sim_common/resources.py:171-222 | a transfer with an idle channel to itself ends at `at + latency + nbytes / capacity` |
| `Serial.EveryRunIsFifo` | sim_common/resources.py:116-148 | in every run of a new channel service is in arrival order, each completion is `max(arrival, previous end) + solo cost`, the channel never idles while one waits, and every transfer registered is served |
| `Serial.EveryCompletionInTurn` | sim_common/resources.py:129-148 | in every run of a new channel the k-th completion is of the k-th transfer registered, at `latency + nbytes / capacity` after it arrived or its predecessor ended, whichever is later; so will the one being served, and only with none left is none served |
| `Serial.AloneCostsSolo` | sim_common/resources.py:134-148 | a transfer that finds the channel idle ends at `at + latency + nbytes / capacity` |
| `Serial.FiringsServeAll` | sim_common/resources.py:134-148 | with nobody new, as many firings as there are transfers left serve them all |
| `Serial.ArrivalsAreLegal` | sim_common/resources.py:129-143 | transfers registered at one instant queue in that order, whatever is being served |
| `Serial.EndsAppend` | sim_common/resources.py:134-143 | a later arrival changes no earlier completion |
| `Channels.ProgressiveChannel.Register` | sim_common/resources.py:171-177 | the object schedules the entry after the latency and nothing else |
| `Channels.ProgressiveChannel.DebitAll` | sim_common/resources.py:183-187 | the debit loop over transfer objects is the debit of each |
| `Channels.ProgressiveChannel.Advance` | sim_common/resources.py:179-188 | the object's advance is the one the theorems are about |
| `Channels.ProgressiveChannel.Retime` | sim_common/resources.py:200-203 | the object cancels and reschedules one transfer as modelled |
| `Channels.ProgressiveChannel.RetimeAll` | sim_common/resources.py:198-203 | the object's loop in `seq` order is the modelled one |
| `Channels.ProgressiveChannel.Recompute` | sim_common/resources.py:190-203 | the object's re-rate is the modelled one, an empty channel included |
| `Channels.ProgressiveChannel.Enter` | sim_common/resources.py:205-210 | the object's entry is the modelled one |
| `Channels.ProgressiveChannel.Complete` | sim_common/resources.py:212-222 | the object's completion is the modelled one, also for a transfer already gone |
| `Channels.SerializeChannel.Register` | sim_common/resources.py:129-132 | the object queues and starts as modelled |
| `Channels.SerializeChannel.StartNext` | sim_common/resources.py:134-143 | the object starts the head of its queue as modelled |
| `Channels.SerializeChannel.Finish` | sim_common/resources.py:145-148 | the object finishes one and starts the next as modelled |
| `Retention.VictimsAreShortestColdPrefix` | realsim/seams/_retention.py:74-83 | victims are the shortest coldest-first run of allowed keys covering the need, or all of them; an excluded key is never counted |
| `Retention.NoteMakesHottest` | realsim/seams/_retention.py:47-52 | an access makes its key the last to go and leaves the others' order alone |
| `Retention.ColdestUnique` | realsim/seams/_retention.py:76 | the `(recency, key)` order has no ties |
| `Retention.LeastRecentlyUsed.Note` | realsim/seams/_retention.py:47-52 | the object records recency, and bytes when given |
| `Retention.LeastRecentlyUsed.Forget` | realsim/seams/_retention.py:54-57 | the object forgets a key entirely |
| `Retention.LeastRecentlyUsed.ForgetHeld` | realsim/seams/volume_service.py:256-257 | forgetting every held key empties the recency map and drops their bytes |
| `Retention.LeastRecentlyUsed.Victims` | realsim/seams/_retention.py:59-83 | the accumulating loop names exactly the modelled victims |
| `Volume.RefusedIffTooBig` | realsim/seams/volume_service.py:190-217 | with a directory and a finite capacity a put is refused if and only if its own keys' bytes alone exceed the capacity |
| `Volume.RefusedPutEmptiesVolume` | realsim/seams/volume_service.py:203-213 | a refused put keeps the accounting and its own residents, whose stored values are now the new ones; with a directory every other key has been evicted |
| `Volume.RefusedPutAgreesIff` | realsim/seams/volume_service.py:203-213 | after a refused put store and byte counts agree if and only if every resident key it wrote kept its size |
| `Volume.RefusedOverwriteDisagrees` | realsim/seams/volume_service.py:203-213 | an input where they come apart: one byte stored in a volume of one, then two refused under the same key |
| `Volume.StoredPut` | realsim/seams/volume_service.py:190-217 | an accepted put stores the batch less the victims told to the directory, keeps the accounting and raises the peak to the new total |
| `Volume.MakeRoomExact` | realsim/seams/volume_service.py:278-302 | making room drops only keys the put does not write, tells the directory once, and projects the total exactly |
| `Volume.EvictedIs` | realsim/seams/volume_service.py:278-282 | the victims of a put are resident, distinct, not its own, and enough or all there are |
| `Volume.DeleteBatchExact` | realsim/seams/volume_service.py:236-245 | a batch delete drops exactly its keys and their counted bytes |
| `Volume.StoreGoneFirst` | realsim/seams/volume_service.py:241-245 | dropping the batch from the store first and forgetting key by key comes to one |
| `Volume.AddedSum` | realsim/seams/volume_service.py:193-196 | what a put adds is its bytes less those its keys held |
| `Volume.GhostsFreeNothing` | realsim/seams/volume_service.py:279-282 | filtering ghosts out of the victims loses no freed bytes |
| `Volume.EveryRunKeepsAccounts` | realsim/seams/volume_service.py:151-259 | over any sequence of calls, refused puts included, resident bytes are the per-key sum within capacity, the ranking's bytes are the residency map, store and residency name the same keys, and the peak is the high-water mark |
| `Volume.EveryRunAgreesIff` | realsim/seams/volume_service.py:151-259 | store and byte counts agree on sizes all through a run if and only if every refused put in it kept its residents' sizes |
| `Volume.RefusalReports` | realsim/seams/volume_service.py:203-213 | a refusal reports the bytes left resident and those the put would have added, which together exceed the capacity |
| `VolumeEvents.EveryEvictionIsColdest` | realsim/seams/volume_service.py:190-302 | after any run of a new volume a put evicts in order of last access, reads, touches of residents and stored puts all counting, and no key accessed before one it leaves; without its last victim it would not fit; and it tells the directory of exactly those |
| `VolumeEvents.ResetEmpties` | realsim/seams/volume_service.py:247-257 | a reset leaves nothing stored, counted or ranked, and keeps the peak and what was told |
| `VolumeServices.VolumeService.Forget` | realsim/seams/volume_service.py:151-154 | the object drops a key from residency, total and ranking |
| `VolumeServices.VolumeService.Delete` | realsim/seams/volume_service.py:236-239 | the object's delete is the modelled one |
| `VolumeServices.VolumeService.DeleteBatch` | realsim/seams/volume_service.py:241-245 | the object's batch delete is the modelled one |
| `VolumeServices.VolumeService.Use` | realsim/seams/volume_service.py:156-159 | the object notes each access with the bytes now occupied, absent keys included |
| `VolumeServices.VolumeService.Get` | realsim/seams/volume_service.py:219-221 | a read notes every key asked for and answers what is stored |
| `VolumeServices.VolumeService.Touch` | realsim/seams/volume_service.py:223-231 | a touch notes resident keys only |
| `VolumeServices.VolumeService.Reset` | realsim/seams/volume_service.py:247-257 | a reset empties store, residency and ranking and keeps the peak |
| `VolumeServices.VolumeService.Drop` | realsim/seams/volume_service.py:283-294 | the eviction loop deletes every victim and takes exactly its bytes off the projection |
| `VolumeServices.VolumeService.AskForRoom` | realsim/seams/volume_service.py:262-302 | the object asks for the overshoot only, evicts, tells the directory, or leaves all alone without one |
| `VolumeServices.VolumeService.SumAdded` | realsim/seams/volume_service.py:193-196 | the sum over the batch is what the put adds |
| `VolumeServices.VolumeService.Put` | realsim/seams/volume_service.py:183-217 | the object's put, refusals included, is the modelled one |
| `DecodeOutcomes.EveryRunAnswersOnce` | kvcache_sim/data/_decode.py:174-276 | in any interleaving each admitted request is answered exactly once or outstanding; an answer holds exactly `max(0, output - 1)` tokens from consecutive steps, their KV in whole blocks and the worst gap, and never changes |
| `DecodeOutcomes.EveryRunInTurn` | kvcache_sim/data/_decode.py:196-207 | in any run of a new engine nobody admitted later gets a first token from an earlier step |
| `DecodeOutcomes.StepsAreBounded` | kvcache_sim/data/_decode.py:244-255 | with nobody new, steps plus work left never exceed the work there was, whatever the steps take |
| `DecodeOutcomes.EnoughStepsAnswerAll` | kvcache_sim/data/_decode.py:231-255 | once the steps have done all the work there was, batch and queue are empty and everyone admitted has been answered |
| `DecodeOutcomes.LoopNeverStalls` | kvcache_sim/data/_decode.py:237-255 | while anyone decodes the loop has a next turn to take |
| `DecodeOutcomes.IdleAnswersAllIff` | kvcache_sim/data/_decode.py:196-207 | when the loop is idle everyone has been answered if and only if `max_batch >= 1` or nobody was owed a token: at `max_batch <= 0` a request waits forever |
| `DecodeOutcomes.NoSlotNoAnswer` | kvcache_sim/data/_decode.py:196-207 | one that does: no slot, one request owed a token, and the loop is idle |
| `DecodeOutcomes.CeilDivIsLeast` | kvcache_sim/workload/_accelerator.py:331-333 | the KV blocks answered are the least that hold the tokens |
| `DecodeEvents.EveryRunKeepsTime` | kvcache_sim/data/_decode.py:244-256 | in every run of a new engine each recorded step ended at the end it was last booked for, a step under way ends at what was booked last, and each request is on record with the tokens and the instant it asked at, all read off the events |
| `DecodeEvents.StepIsFrozen` | kvcache_sim/data/_decode.py:246-255 | from a booking until it lands the step is of exactly those in the batch when it was booked and ends when it was booked to, whoever asks meanwhile; with an empty batch there is no step |
| `DecodeEvents.EachMemberItsToken` | kvcache_sim/data/_decode.py:278-293 | a step that lands gives each member one token, the one made for its place in the step, behind those it had, and leaves everyone else's as they were |
| `DecodeEvents.EveryAnswerIsOwed` | kvcache_sim/data/_decode.py:187-293 | in every run an answer with tokens holds one fewer than asked for and never less than none, from consecutive steps, the least KV blocks that hold them, and the longest wait between two of them or for the first, measured by the bookings and the instant it asked |
| `DecodeRuns.NextKeepsInv` | kvcache_sim/data/_decode.py:174-299 | every event keeps: batch at most `max_batch`, a queue only behind a full batch, ids in admission order, tokens plus remaining as owed, every token's step, the loop running exactly while there is a batch, and one answer each |
| `DecodeRuns.GapsTelescope` | kvcache_sim/data/_decode.py:288-291 | gaps between tokens sum to last minus first instant, and `tbt_max` bounds each and is met by one |
| `DecodeRuns.StepIsAfterStep` | kvcache_sim/data/_decode.py:278-299 | the search-and-remove loop over frozen members and the promotion are one pass over the front of the batch |
| `DecodeRuns.StepSpends` | kvcache_sim/data/_decode.py:286-295 | each step takes exactly as many tokens off what is left to do as it had members |
| `DecodeRuns.LandKeepsInv` | kvcache_sim/data/_decode.py:246-255 | a step landing and the next one starting keep the engine in order |
| `DecodeRuns.AskKeepsInv` | kvcache_sim/data/_decode.py:174-208 | admitting keeps the engine in order |
| `DecodeRuns.AskedNothing` | kvcache_sim/data/_decode.py:187-195 | a request owed no decode token is answered at once with no token and no KV |
| `DecodeRuns.DieKeepsInv` | kvcache_sim/data/_decode.py:256-276 | a dying loop answers everyone outstanding, once, and clears batch and queue |
| `Decode.EmitShape` | kvcache_sim/data/_decode.py:285-295 | emitting to the frozen members keeps survivors in order ahead of latecomers and answers the rest |
| `Decode.PromoteShape` | kvcache_sim/data/_decode.py:296-298 | freed slots go to the longest-queued, as many as fit |
| `DecodeEngines.DecodeEngine.Admit` | kvcache_sim/data/_decode.py:174-208 | the object's admission is the modelled one |
| `DecodeEngines.DecodeEngine.Finish` | kvcache_sim/data/_decode.py:210-235 | the object resolves a future once; a second time is recorded as such |
| `DecodeEngines.DecodeEngine.EnsureStepping` | kvcache_sim/data/_decode.py:237-242 | the object starts the loop when there is a batch and none runs |
| `DecodeEngines.DecodeEngine.EmitOne` | kvcache_sim/data/_decode.py:286-295 | one member object's token, removal included, is the modelled one |
| `DecodeEngines.DecodeEngine.EmitAll` | kvcache_sim/data/_decode.py:285-295 | the loop over member objects is the modelled one |
| `DecodeEngines.DecodeEngine.Promote` | kvcache_sim/data/_decode.py:296-298 | the promotion loop is the modelled one and keeps the line |
| `DecodeEngines.DecodeEngine.StepComplete` | kvcache_sim/data/_decode.py:278-299 | the object's step completion is the modelled one |
| `DecodeEngines.DecodeEngine.Turn` | kvcache_sim/data/_decode.py:246-252 | the object freezes the batch for a step, or stops |
| `DecodeEngines.DecodeEngine.Begin` | kvcache_sim/data/_decode.py:244-255 | the first turn of the loop keeps the engine in order |
| `DecodeEngines.DecodeEngine.Land` | kvcache_sim/data/_decode.py:246-255 | a landed step and the next turn keep the engine in order |
| `DecodeEngines.DecodeEngine.Abandon` | kvcache_sim/data/_decode.py:261-276 | the object abandons as modelled |
| `DecodeEngines.DecodeEngine.FailAll` | kvcache_sim/data/_decode.py:272-274 | the loop fails exactly those not answered yet |
| `DecodeEngines.Active.Take` | kvcache_sim/data/_decode.py:289-293 | a slot object takes a token: gap, time, countdown and list |
| `Accelerator.EveryRunBooksApart` | kvcache_sim/workload/_accelerator.py:356-408 | in any run all prefill and decode bookings are disjoint and in order, none starts before it was claimed or leaves the device idle in front of it, one pass at most owns the device, and one does while any waits |
| `AcceleratorEvents.EveryRunBooksCosts` | kvcache_sim/workload/_accelerator.py:343-408 | in every run of a new device each pass is on record as submitted, its booking is exactly as long as it costs and it runs until that is over, the bookings of decode steps are the steps claimed, in order and each as long as it costs, and each booking starts when asked for or when the one before ends, whichever is later |
| `AcceleratorEvents.FreeDeviceIsTaken` | kvcache_sim/workload/_accelerator.py:201-214 | a pass with work that finds no other has the device at once, behind what is already booked, for what it costs |
| `Accelerator.NoneOvertaken` | kvcache_sim/workload/_accelerator.py:201-224 | a pass queued at a strictly earlier instant is booked once, before the other |
| `Accelerator.HandOffPicksLeast` | kvcache_sim/workload/_accelerator.py:218-224 | a hand-off gives the device to a waiter submitted earliest, and of those of one instant to one whose tag no other precedes, and the rest go on waiting |
| `Accelerator.SortedOrders` | kvcache_sim/workload/_accelerator.py:223 | the stable sort permutes the wait list into order |
| `Accelerator.NextKeepsInv` | kvcache_sim/workload/_accelerator.py:194-224 | every submission, resumption, finish, decode claim or passing of time keeps ownership, the wait list, the order and the bookings |
| `Accelerator.FinishesDrain` | kvcache_sim/workload/_accelerator.py:201-224 | each finish completes exactly one pass, and nothing else completes any |
| `Accelerator.NeverStalls` | kvcache_sim/workload/_accelerator.py:218-224 | while a pass is unfinished some pass can go on |
| `Accelerators.SimulatedAccelerator.Claim` | kvcache_sim/workload/_accelerator.py:343-358 | the object books after whatever has the device |
| `Accelerators.SimulatedAccelerator.ClaimStep` | kvcache_sim/workload/_accelerator.py:404-408 | a decode step books the same timeline and keeps everything in order |
| `Accelerators.SimulatedAccelerator.Prefill` | kvcache_sim/workload/_accelerator.py:399-402 | a pass takes the device, queues, or with nothing to compute does neither |
| `Accelerators.SimulatedAccelerator.Start` | kvcache_sim/workload/_accelerator.py:212-214 | the owner claims once |
| `Accelerators.SimulatedAccelerator.Resume` | kvcache_sim/workload/_accelerator.py:205-214 | a resolved turn claims the device |
| `Accelerators.SimulatedAccelerator.HandOff` | kvcache_sim/workload/_accelerator.py:218-224 | the object hands on as modelled |
| `Accelerators.SimulatedAccelerator.Finish` | kvcache_sim/workload/_accelerator.py:211-216 | a pass that ends or fails hands the device on |
| `Dispatch.EveryRunLosesNoWakeup` | proposed/dispatch.py:124-179 | in any run a gate still awaited is released if and only if everything it named was committed since it parked, and is filed under exactly the rest |
| `DispatchEvents.EveryCommitIsFolded` | proposed/dispatch.py:91-136 | in every run of a new dispatcher what is committed is what was dispatched once somebody was composed for its kind; it was folded by those composed for it by then, in that order and as often; and a reducer has heard each commit of a kind once for every time it had been composed for it before |
| `DispatchEvents.EveryGateIsReleased` | proposed/dispatch.py:138-179 | in every run each gate opened and not gone is released if and only if all it was opened on was committed since, and the buckets hold exactly the rest; who is gone is read off what the gates were answered |
| `Dispatch.WokenSeeEveryFold` | proposed/dispatch.py:131-136 | at every moment of a commit's walk every reducer has folded every commit, this one included, and a released gate misses nothing |
| `Dispatch.FoldOrderIsIrrelevant` | proposed/dispatch.py:15-17 | whatever state reducers hold and whatever their folds write to it, an action's folds come to the same states in any order |
| `Dispatch.HeldIsReplayed` | proposed/dispatch.py:131-132 | what a reducer holds is its own fold of the actions composed for it, and no neighbour's state enters |
| `Dispatch.FoldIs` | proposed/dispatch.py:131-132 | a reducer folds an action once for each time it was composed for its kind |
| `Dispatch.WakeIs` | proposed/dispatch.py:134-136 | a commit tells exactly the gates of its bucket, once each |
| `Dispatch.NextKeepsInv` | proposed/dispatch.py:91-179 | every event keeps the two-way index, what gates miss, and the reducers' states |
| `Dispatch.DispatchKeepsInv` | proposed/dispatch.py:124-136 | so does a commit |
| `Dispatch.ParkKeepsInv` | proposed/dispatch.py:150-156 | so does parking, which precedes the probe |
| `Dispatch.UnparkKeepsInv` | proposed/dispatch.py:157-179 | a true probe or a cancelled wait leaves no reference and no empty bucket and touches no other gate |
| `Dispatch.RefusedIffNeverComposed` | proposed/dispatch.py:91-130 | after any run of a new dispatcher an action is refused, with nothing moved, if and only if no reducer was ever composed for its kind; else it is committed and nobody is filed under it |
| `Dispatch.GateLeavesNoTrace` | proposed/dispatch.py:138-179 | a call of `gate` is an error if and only if it names nothing and does not hold; one that fails or holds at once leaves the buckets a dispatcher never asked would have, whatever was committed while it probed; one that waits is filed under exactly what was not committed since; no other gate notices |
| `Dispatchers.Dispatcher.Compose` | proposed/dispatch.py:91-94 | the object registers folds as modelled |
| `Dispatchers.Dispatcher.RunFolds` | proposed/dispatch.py:131-132 | the fold loop is the modelled one |
| `Dispatchers.Dispatcher.WakeAll` | proposed/dispatch.py:134-136 | the loop over waiter objects is the modelled one |
| `Dispatchers.Dispatcher.DispatchSync` | proposed/dispatch.py:107-136 | the object's dispatch is the modelled one |
| `Dispatchers.Dispatcher.Park` | proposed/dispatch.py:150-156 | the object files a new waiter under each action |
| `Dispatchers.Dispatcher.File` | proposed/dispatch.py:155-156 | the filing loop, in any order, fills the buckets as modelled |
| `Dispatchers.Dispatcher.Unfile` | proposed/dispatch.py:158-164 | the unfiling loop, in any order, empties them as modelled |
| `Dispatchers.Dispatcher.Answer` | proposed/dispatch.py:157-165 | what the probe decides is as modelled |
| `Dispatchers.Dispatcher.Leave` | proposed/dispatch.py:167-177 | a wait that ends or is cancelled cleans up as modelled |
| `Dispatchers.Waiter.Discard` | proposed/dispatch.py:134-136 | a waiter object drops an action and is ready when it misses none |
| `AsyncLoop.EveryRunIsOnTime` | sim_common/async_engine.py:263-315 | in any run each timer runs at its very instant, once, in `(when, seq)` order, other callbacks in call order, no pending timer lies before the clock, and nothing uncancelled is lost |
| `AsyncLoop.ClockStopsAtLiveTimers` | sim_common/async_engine.py:270-286 | with something ready, or stopping, a tick leaves the clock; otherwise it moves it to the earliest timer not cancelled |
| `AsyncLoop.TickDrains` | sim_common/async_engine.py:295-307 | a tick drains what was ready and every live timer due by then, and leaves nothing ready |
| `AsyncLoop.CancelledNeverRuns` | sim_common/async_engine.py:307-315 | a callback cancelled before it ran never runs, whatever follows |
| `AsyncEvents.CancelTakesEffect` | sim_common/async_engine.py:269-315 | in every run a callback that was cancelled before it ran never runs, whatever happened before and happens after |
| `AsyncEvents.EveryCallbackRunsAsSet` | sim_common/async_engine.py:183-315 | in every run the k-th timer set has run at its instant, and the n-th callback called has run, or either is still to run, unless some event cancelled it; none runs twice and nothing else runs |
| `AsyncEvents.StopEndsWaiting` | sim_common/async_engine.py:279-293 | once stopped, a drained loop can always take a tick, never deadlocks, and the tick waits for nothing |
| `AsyncEvents.DrainIsScript` | sim_common/async_engine.py:303-315 | a drain is each callback of its batch run in order, doing all it does, but for those cancelled by then |
| `AsyncLoop.DeadlockIff` | sim_common/async_engine.py:272-293 | a tick reports deadlock if and only if nothing is ready, nothing stops, and no live timer is left |
| `AsyncLoop.NextKeepsInv` | sim_common/async_engine.py:183-315 | every effect, tick and callback keeps the line of what ran, drains, waits and is scheduled |
| `AsyncLoop.PushChain` | sim_common/async_engine.py:198-208 | the newest timer goes behind every one not set for later |
| `AsyncLoop.DrainKeepsInv` | sim_common/async_engine.py:303-315 | a whole drain leaves the loop in order, drained, at the same instant |
| `AsyncEngines.AsyncEngine.CallAt` | sim_common/async_engine.py:198-208 | the object stamps the next `seq` and schedules |
| `AsyncEngines.AsyncEngine.Perform` | sim_common/async_engine.py:183-208 | what a callback does to the object is as modelled |
| `AsyncEngines.AsyncEngine.DropCancelled` | sim_common/async_engine.py:270-274 | the head-dropping loop is the modelled one |
| `AsyncEngines.AsyncEngine.MoveDue` | sim_common/async_engine.py:296-301 | the loop moving due timers is the modelled one |
| `AsyncEngines.AsyncEngine.DrainAll` | sim_common/async_engine.py:307-315 | the drain runs exactly what was ready, cancelled handles skipped |
| `AsyncEngines.AsyncEngine.RunOnce` | sim_common/async_engine.py:263-315 | one tick of the object is the modelled one, deadlock included |
| `SimEngine.EveryRunFiresInOrder` | sim_common/engine.py:32-90 | in any run events fire once in strictly increasing `(time, seq)` order, and when the queue is drained exactly the callbacks of resolved promises have fired, each once, in the order given |
| `SimEvents.EveryCallbackFires` | sim_common/engine.py:32-90 | in every run the plain callbacks fired or queued are exactly those scheduled, each at its delay after the instant it was scheduled at; a promise's n-th callback is fired or queued if and only if the promise was ever resolved and given that many; once the queue is drained all have fired, and the clock is where the last of them was due |
| `SimEngine.NextKeepsInv` | sim_common/engine.py:32-90 | every call keeps that order, and the clock never goes back |
| `SimEngine.ReleaseAll` | sim_common/engine.py:83-90 | resolving releases what the promise held, each once and in order, behind what is due now |
| `SimEngine.ResolveKeepsInv` | sim_common/engine.py:83-90 | resolving, also a second time, keeps everything in order |
| `SimEngine.ScheduleQueues` | sim_common/engine.py:37-41 | a scheduled event goes behind all others of its instant |
| `Sims.Sim.Schedule` | sim_common/engine.py:32-41 | the object refuses exactly the negative delays |
| `Sims.Sim.MakePromise` | sim_common/engine.py:66-70 | a new promise on the engine is the modelled one |
| `Sims.Sim.Fire` | sim_common/engine.py:50-53 | one turn of the object's loop is the modelled one |
| `Sims.Promise.AddCallback` | sim_common/engine.py:72-81 | the promise object holds or releases as modelled |
| `Sims.Promise.Resolve` | sim_common/engine.py:83-90 | the promise object resolves as modelled |
| `Sims.Promise.ReleaseAll` | sim_common/engine.py:88-89 | the release loop is the modelled one |
| `Ordering.BestIsHeadOfOrdered` | proposed/selector.py:738-761 | the single pass of `Best` finds the head of `Ordered` |
| `Ordering.BestLeads` | proposed/selector.py:719-761 | the pick of a keyed selection is compared by less than anyone else, or by no more and its id comes first |
| `Ordering.UnkeyedStands` | proposed/selector.py:738-761 | what nothing keys stands as listed: ordering leaves it be and the leader is the pick |
| `Ordering.FirstFigureDecides` | proposed/selector.py:708-724 | comparables are ordered by the first figure they differ in |
| `Ordering.TakeKeepsTheBest` | proposed/selector.py:353-355 | the leading `n` of an ordered selection are better than every source left out, and the leading one is `Best` |
| `Ordering.BoundCommutesIffClosed` | proposed/selector.py:822-851 | a bound may sit on either side of the cut on every selection of its arity if and only if it is downward-closed in the fold |
| `Ordering.BoundCommutesIff` | proposed/selector.py:829-842 | on one selection, if and only if the best source is inside the bound or none is |
| `Ordering.ClosedCommutes` | proposed/selector.py:839-842 | a downward-closed bound commutes, with a fold or without |
| `Ordering.BoundedOrdered` | proposed/selector.py:844-849 | bounding and ordering commute for any bound |
| `Ordering.BoundedIs` | proposed/selector.py:844-849 | a bound keeps order, keys and gate and exactly the sources inside |
| `Ordering.BoundedErrsIff` | proposed/selector.py:844-851 | a bound is refused exactly on everyone's selection and on a named one nothing keyed, and lets nobody through as nobody |
| `Ordering.OrderedPermutes` | proposed/selector.py:738-748 | ordering permutes the sources and changes nothing else |
| `Ordering.OrderedTwice` | proposed/selector.py:738-748 | ordering what is ordered does nothing |
| `Ordering.OrderedIgnoresListing` | proposed/selector.py:719-748 | the producer's listing has no say in the order |
| `Ordering.OrderIsUnique` | proposed/selector.py:719-724 | with the id compared last there is one order |
| `Ordering.PipeInTwo` | proposed/selector.py:854-867 | a chain of stages may be cut anywhere, and a chain of one stage is that stage |
| `Ordering.EveryChainNarrows` | proposed/selector.py:262-376 | whatever stages a chain strings together, it names each source once and none its producer did not, keys exactly those, and only annotating adds to what orders one |
| `Selectors.BuildersCover` | proposed/selector.py:146-246 | the builders refuse exactly repeated sources and key each source with what it was given |
| `Selectors.OnlyCuts` | proposed/selector.py:317-351 | cutting is refused exactly for everyone's selection and for strangers, keeps order, keys and gate, and names each source once if and only if the cut does |
| `Selectors.RequireKeepsOrAbstains` | proposed/selector.py:357-376 | `require` keeps a selection whose head passes, or which has none, and otherwise abstains rather than promote another; it is refused exactly for everyone's selection |
| `Selectors.RepeatedCutRepeats` | proposed/selector.py:317-351 | a cut that repeats a source, and the answer that does |
| `Selectors.AbstainIsIdentity` | proposed/selector.py:301-303 | the abstention is its identity on the left, and on the right exactly for what decides or is it |
| `Selectors.KeyedNobodyIsReplaced` | proposed/selector.py:301-303 | an empty ranking, keyed, that the abstention replaces |
| `Selectors.ChainOfChains` | proposed/selector.py:557-568 | a chain of chains answers as one would |
| `Selectors.FirstMatch` | proposed/selector.py:557-568 | the loop answers with the fold, and consults no link behind the first that decides |
| `SchedulerChains.CacheAwareBoundCommutes` | kvcache_sim/control/scheduler.py:169-192 | the cache-aware TTFT bound may sit below the cut |
| `SchedulerChains.DecodeBoundCommutes` | kvcache_sim/control/scheduler.py:195-210 | so may the decode TBT bound, for any step time that does not fall with the batch |
| `SchedulerChains.BaselineBoundCommutesIff` | kvcache_sim/control/scheduler.py:174-192 | the load-balance bound may if and only if there is no limit |
| `SchedulerChains.CacheAwareRefusesIff` | kvcache_sim/control/scheduler.py:391-394 | cache-aware admission refuses if and only if every plan is over the limit |
| `SchedulerChains.DecodeRefusesIff` | kvcache_sim/control/scheduler.py:195-210 | decode admission refuses if and only if in every batch one more request would wait longer for a token than the limit |
| `SchedulerChains.CacheAwarePicksEarliest` | kvcache_sim/control/scheduler.py:169-171 | cache-aware prefill goes to the earliest first token, the lower id of equals |
| `SchedulerChains.BaselinePicksShortestQueue` | kvcache_sim/control/scheduler.py:174-176 | the baseline goes to the shortest queue, whatever the plans |
| `SchedulerChains.DecodePicksSmallestBatch` | kvcache_sim/control/_selector.py:284-315 | decode goes to the smallest batch |
| `SchedulerChains.LongerPrefixWinsIff` | kvcache_sim/control/_selector.py:87-103 | a prefix run wins whatever the loads if and only if it leads by more than `bound` blocks |
| `SchedulerChains.LoadSettlesTies` | kvcache_sim/control/_selector.py:87-103 | replicas of one prefix are told apart by load alone |
| `Routing.EveryRunRoutesOnce` | kvcache_sim/control/scheduler.py:445-491 | however asks interleave, a served request was booked once, for the host serving it, in at most two asks; a refused one never; none runs out of hops; the memo holds exactly those moved and not re-asked, so nothing at quiescence |
| `RoutingEvents.FirstVerdictStands` | kvcache_sim/control/scheduler.py:445-491 | in every run, for any number of hops and however others interleave, a request is booked and served, with the whole answer, as was decided when it was first asked; what would be decided when it is asked again changes nothing |
| `Routing.FailsIffOutOfHops` | proposed/routed.py:127-141 | some run has a call that fails if and only if fewer than two hops are allowed |
| `Routing.FailedStaysBehind` | proposed/routed.py:127-141 | a settled call fails exactly with no hop, or with one while its request is in the memo; that memo is then all that was booked for it, at a host not asked |
| `Routing.OneHopStrands` | proposed/routed.py:127-141 | an input: one hop, one request decided elsewhere, and its booking and memo stay behind |
| `Routing.NextKeepsInv` | kvcache_sim/data/serving.py:230-248 | every start and ask keeps where each request stands |
| `Routing.RoutedPlane.Call` | proposed/routed.py:121-141 | the loop visits exactly the hosts the answers name, stops at the first without an address, and fails only after `max_hops` of them |
| `Routing.Scheduler.Decide` | kvcache_sim/control/scheduler.py:445-491 | the object answers a placed request with its memo, once, else books and remembers a move |
| `Prefixes.KeysEqualIff` | kvcache_sim/workload/_generator.py:217-241 | under one root two keys are equal if and only if their whole segment prefixes are |
| `Prefixes.KeysContinue` | kvcache_sim/workload/_generator.py:217-241 | each key is the one before it, or the root, then a separator and its own segment, a number or `g` and one |
| `Prefixes.DecimalReads` | kvcache_sim/workload/_generator.py:239 | a segment id is written as the decimal number it is, with nothing in front |
| `Prefixes.TextInjective` | kvcache_sim/control/request.py:79-103 | generated segments never meet decimal ones and no segment holds a separator |
| `Prefixes.ChainsShare` | kvcache_sim/workload/_generator.py:217-241 | two chains share keys exactly as far as their prompts share segments |
| `Prefixes.ChainNamesOnce` | kvcache_sim/workload/_generator.py:217-241 | no key stands twice in a chain |
| `Prefixes.RootsAliasIff` | kvcache_sim/workload/_generator.py:217-229 | two model ids ever share a key if and only if one continues the other by whole segments |
| `Prefixes.PlainRootsNeverAlias` | kvcache_sim/workload/_generator.py:217-229 | model ids without a separator never alias |
| `Prefixes.SeparatedRootsAlias` | kvcache_sim/workload/_generator.py:217-229 | two that do: an id, and it with a segment appended |
| `Prefixes.Extend` | kvcache_sim/workload/_generator.py:236-241 | the accumulating loop writes the chain |
| `Prefixes.ContinuationKeys` | kvcache_sim/control/request.py:96-103 | the loop continues the chain, or the id of a request with no blocks |
| `Prefixes.LongestPrefixRun` | kvcache_sim/control/_prefix.py:16-22 | the counting loop finds the longest leading run present |
| `Prefixes.PrefixLengthsOf` | kvcache_sim/control/_prefix.py:25-40 | every instance holding the first block is mapped to its leading run, never more than there are keys, and no other |
| `Prefixes.AbsentHoldsNothing` | kvcache_sim/control/_prefix.py:33-40 | an instance left out holds no leading block |
| `Workload.TurnsShare` | kvcache_sim/workload/_generator.py:342-393 | any two turns share exactly: the earlier's whole chain within one dialogue, system and rank context within one rank, the system prompt alone across ranks; without a query block, as long as one of two turns of different dialogues is its first |
| `Workload.TurnsShareIff` | kvcache_sim/workload/_generator.py:342-393 | so do all turns of all workloads of a shape if and only if it has a query block, generates none, has one turn a dialogue, or starts from nothing |
| `Workload.SecondTurnsAlias` | kvcache_sim/workload/_generator.py:366-381 | the inputs where they do not: the second turns of two dialogues of one rank have the very same keys |
| `Workload.DialoguesAreAsCounted` | kvcache_sim/workload/_generator.py:342-398 | turns total the draws, every dialogue has 1 to `max_turns`, only a rank's last may be short, and dialogues number the sum of ceil(count / max_turns) |
| `Workload.TakeKeepsInv` | kvcache_sim/workload/_generator.py:351-366 | one draw keeps that |
| `Workload.SegmentsExtend` | kvcache_sim/workload/_generator.py:369-381 | a later turn's prompt extends every earlier one's |
| `Workload.PromptIsNumbered` | kvcache_sim/workload/_generator.py:321-381 | a prompt is the system segments from 0, its rank's own from 1000 on, and each turn's message, numbered behind every rank's and every earlier message, with what each answer left between messages, counted from one |
| `Workload.FirstKeyContinues` | kvcache_sim/workload/_generator.py:369-381 | every chain continues the model's name, or without a block in any prompt the id of the dialogue's first request |
| `Generator.NextKeys` | kvcache_sim/workload/_generator.py:373-381 | a later turn's keys, built from the previous turn's, are the chain of all its segments; with no key to continue from it fails |
| `Generator.CountDialogues` | kvcache_sim/workload/_generator.py:339-342 | the counting loops give the number of dialogues beforehand |
| `Generator.Openings` | kvcache_sim/workload/_generator.py:326-333 | the loop gives each rank its own context behind the system prompt |
| `Generator.TakeTurn` | kvcache_sim/workload/_generator.py:351-381 | one turn of the loop extends or opens a dialogue as modelled |
| `Generator.MakeWorkload` | kvcache_sim/workload/_generator.py:317-398 | the whole loop writes exactly the modelled dialogues and chains, as many as counted, and fails if and only if prompts and generations have no block at all, dialogues may have a second turn, and some rank is drawn twice |
| `Generator.ReturnsIff` | kvcache_sim/workload/_generator.py:351-360 | some dialogue has a second turn if and only if dialogues may have one and some rank is drawn twice |
| `Generator.NothingToContinue` | kvcache_sim/workload/_generator.py:373-381 | an input that fails: no blocks, two turns a dialogue, one rank drawn twice |
| `Serving.NeverMismatchesIff` | kvcache_sim/data/serving.py:265-300 | publishing never fails for want of a block, whatever is matched, pulled or evicted, if and only if the prompt fills as many blocks as it has keys, or has none |
| `Serving.OneBlockPerKeyServed` | kvcache_sim/workload/_accelerator.py:399-402 | then the pass returns exactly one block for each fresh key: each pulled block goes back under its own key, and the computed ones follow in order |
| `Serving.WholeBlocks` | kvcache_sim/workload/_generator.py:384-393 | a prompt of whole blocks is such a prompt |
| `Serving.PricedIsSensible` | kvcache_sim/control/_selector.py:216-281 | every plan splits the prompt into cached and uncached and pulls exactly the keys between what is local and what is matched |
| `Serving.PullsIff` | kvcache_sim/control/_selector.py:167-230 | a candidate pulls if and only if another host holds strictly more than `threshold` times its own blocks, and more than it, and then exactly the keys it lacks; otherwise it reuses what it has |
| `Serving.PlansAreHeld` | kvcache_sim/control/_selector.py:216-281 | priced off the directory's own answer, every plan is like that; the candidate holds each block it counts as local, and the peer each one to pull |
| `Serving.ServingHost.Recompute` | kvcache_sim/data/serving.py:314-336 | the amended row covers the prompt and says what will be computed |
| `Serving.ServingHost.Serve` | kvcache_sim/data/serving.py:251-300 | what is computed and published, and the row afterwards, on the pulled and the evicted path |
| `FetchGraph.EachEdgeShownOnce` | sim_common/report.py:111-131 | branching mode, on any finite graph, ends, expands exactly what the roots reach, and shows each edge under a reachable node once and no other |
| `FetchGraph.EachRootShownOnce` | sim_common/report.py:127-131 | each root has one line, in order |
| `FetchGraph.WalkShows` | sim_common/report.py:113-125 | a walk shows the rest of its own node and all of whoever it expands |
| `FetchGraph.WalkExpands` | sim_common/report.py:113-125 | whoever a walk expands is reachable, and nothing stays half expanded |
| `FetchGraph.ChildrenAreEdges` | sim_common/report.py:79-84 | children are the recorded edges, each once |
| `FetchGraph.ChildrenAsServed` | sim_common/report.py:79-84 | a node's children stand in the order it first served them |
| `FetchLines.ChildrenInOrder` | sim_common/report.py:116-126 | whoever is reached is shown serving all its children, in that order |
| `FetchLines.MarkedWhenSeen` | sim_common/report.py:121-124 | a served node is marked as shown before if and only if it has children and stands further up |
| `FetchLines.EveryLineHangs` | sim_common/report.py:116-131 | each served node's line stands under the one that expands who serves it, drawn in one step deeper, with only that one's descendants between, and ends its branch if and only if it is the last child |
| `FetchGraph.InlineEndsIff` | sim_common/report.py:102-109 | the inline loop ends if and only if the chain never comes back to a node |
| `FetchGraph.RhoNeverEnds` | sim_common/report.py:102-109 | a root leading into a loop is taken for a chain, and the inline loop never ends |
| `Pictures.EdgeGraph` | sim_common/report.py:71-87 | the loop finds children, sorted roots and the chain flag |
| `Pictures.Picture.WalkOn` | sim_common/report.py:113-125 | the recursive walk over shared lines and expanded nodes is the modelled one, and terminates |
| `Pictures.Picture.DrawAll` | sim_common/report.py:127-131 | the loop over roots is the modelled one |
| `Pictures.Inline` | sim_common/report.py:104-108 | the inline loop follows the chain to its end |
| `Pictures.RenderTree` | sim_common/report.py:90-132 | nothing, chains or a tree, exactly as the graph asks: one chain from each root in order along the only edges there are, or a tree with one line a root and each edge under a node reached shown once |
| `Pictures.DrawingIsSettled` | sim_common/report.py:90-132 | what is recorded settles what is drawn: no two drawings meet that contract |
| `Pictures.RootsAreTops` | sim_common/report.py:85 | the sorted roots are served by nobody and named once |
| `Shards.ShardsTile` | realsim/tools/_benchmark_harness.py:253-276 | every cell of the tensor is in exactly one rank's piece, at any size and number of shards |
| `Shards.PieceIs` | realsim/tools/_benchmark_harness.py:267-276 | a rank's piece runs from `rank` widths to one more, stopping at the extent, with the least width that covers it |
| `Shards.OneDimensionIsCut` | realsim/tools/_benchmark_harness.py:265-276 | only the split dimension is cut, and nothing without one |

## Left out

- ResourceRegistry: the table of channels by key and the stamping of `seq` across them; each channel is modelled by itself, with its transfers numbered as they register.
- VolumeServices.VolumeService.Put: the awaits inside a put; with a round trip to the directory another put may interleave, which is not modelled. Recency order within a batch is any order the caller gives.
- Volume.EveryRunKeepsAccounts: capacity is an integer or unbounded, so the truncation of a fractional overshoot does not arise.
- DecodeRuns.NextKeepsInv: a suspension while the engine reports on itself, between a change of the batch and the start of the loop or between booking a step and waiting for it; reports are taken as inline.
- Accelerator.NextKeepsInv: cancellation of a queued prefill, which the code does not handle either.
- AsyncLoop.EveryRunIsOnTime: timers set in the past and the seeded random ready queue.
- AsyncEvents.CancelTakesEffect: a handle is a value, so a run may cancel one before it is set; the code has no such call.
- AsyncEngines.AsyncEngine.CallAt: the array layout of the heap; the schedule is kept in the order it pops.
- Sims.Sim.Fire: the loop of `run` as one call, since a callback may schedule forever; its turns are modelled.
- Dispatch.NextKeepsInv: actions dispatched from inside a fold, and awaiting one gate twice.
- Selectors.FirstMatch: what raises while comparing dimensions that hold no figure; orders ask for figures or a fold that reads them, as the types do.
- SchedulerChains.DecodeBoundCommutes: how occupancy is predicted; the batch is a figure already in the key.
- Routing.EveryRunRoutesOnce: what the chains decide is an input, and a request id is used once.
- Generator.MakeWorkload: arrival times and think times, and the popularity draw itself. Dialogues under construction are values in a list, not shared objects.
- Serving.ServingHost.Serve: transfer and queue times, traces and metrics; a payload is which block it is.
- Pictures.RenderTree: the drawn characters of a branch, and inputs on which the inline loop does not end.
- Futures are what they resolve to: a set answer, a flag, or a place in a list.
- Cost models, sensors, the directory and everything of TorchStore, Monarch and torch are inputs or are not modelled.
- Rounding of floating-point time is not modelled.
- The report's ledger, configuration, traces, demos and the terminal interface would only add easy members.
