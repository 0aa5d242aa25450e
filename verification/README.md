# The SPE task queue of speutils

speutils lets a Cell host hand tasks to SPEs. For every SPE there is a ring of 32-word task
slots and a ring of acks. Three agents share them without a lock:

- the **producer** (host thread) picks an SPE round robin, fills the slot at `front`, publishes
  `front` through a two-word atomic (`state`, then `count`) and steps `front`;
- the **SPU** polls the atomic and drives each published slot through a four-stage pipeline of
  rotating contexts, fetching the slot and putting the ack by DMA;
- the **harvester** (host thread) clears the ack at `back` and steps `back`.

This project models that protocol and proves what it delivers. It also models the doubly linked
list that holds registered programs.

## How the model is built

`HostSide` and `SpuSide` give one function per memory write and per pipeline stage. `Protocol` makes
a transition system of them, in which every agent moves one access at a time in any order and the
DMA engine delivers a fetched slot word by word and lands acks out of order. A `Log` beside the
state records the history of a run; no step reads it. `Preservation` proves one invariant of all
steps; `Runs`, `Delivery`, `Timeline` and `Queues` draw what it means over whole runs; `Answers`
follows the acks, and `Draining` shows that the work gets done. The classes (`Ring`, `SpeQueue`,
`HostFifo`, `TaskManager`, `LinkedList`) follow the C code statement by statement and are proved
against the same functions; `Refinement` and `HostRuns` show that their calls are runs of the
transition system, and `TaskManager.Manager.Pipeline` uses it to terminate. `Occupancy` says what
becomes of the queue after calls that test too little, and `Scenario` gives concrete runs.

Five counters describe a queue at any time: acks harvested, tasks retired, tasks fetched, the
published count that the SPU has seen, and the published count. `Indices.At(x, n)` is the
position after `x` increments from the last entry, which is where the SPU's indices start; the
host's start one increment further. `Log.content[j + 1]` is publication `j` and lives at
`At(j + 1, n)`; `Log.content[0]` is what the last slot held at start-up.

## Where the code falls short of its promise

- **Stage 1 fetches one slot early.** It addresses the slot with `in_back` before stepping it and
  the ack after (spu/src/spu_taskmanager.c:49-53). `Addressing` selects the code as written or as
  meant. As written every retirement carries the publication before its own
  (`Delivery.AsWrittenDeliversOneLate`); it is right exactly when all publications repeat the
  start-up content of the last slot (`Delivery.AsWrittenDeliversIff`); `Scenario.AsWrittenMissesFirstTask`
  is a run in which it is wrong. Everything else is proved for both.
- **A second `fifoBegin` without a kick** passes a slot after a test for one free slot, which the
  open slot itself satisfies. `Occupancy.SecondBegin`: the queue's invariant survives, and the call
  is a run of the queue, exactly when two slots are free; the transition system admits the step
  under that condition. `Occupancy.SecondBeginHidesALap`: with a single free slot the next kick
  makes the ring read empty, and a whole lap of publications is invisible to an SPU that has
  fetched none of it. `Scenario.SecondBeginStallsRing` reaches that.
- **`fifoRegisterProgram`** tests neither for a free slot nor for an open one.
  `Occupancy.RegisterIsRun`: it is a run of the queue exactly when nothing is open and a slot is
  free, or when the open slot is that registration, half filled. `Occupancy.RegisterKeepsInvIff`
  says when the invariant survives; on a full ring it does not, and `Occupancy.RegistrationHidesALap`
  is the consequence. Over an open slot the invariant survives but the begun command is lost
  (`Occupancy.RegistrationTakesTheOpenSlot`). `Scenario.RegistrationStallsFullRing` and
  `Scenario.RegistrationLosesNoop` reach the two failures.
- **A `fifoKick` without a begin** publishes the front slot as it is. `Occupancy.UnopenedKick`: the
  queue's invariant survives exactly when a slot is free.
- **`listRemoveEntry`** leaves the successor's back link stale, pointing to a freed node.
  `LinkedList.List.Remove`: a well-formed list stays well-formed exactly when the removed node was
  the last, or the link is repaired. `LinkedList.Sound` says which operations avoid the stale
  links; `LinkedList.NeighboursAsWritten` shows some that do not.

## Model

| member | source | states |
|---|---|---|
| Indices.AtIsResidue | spu/src/spu_taskmanager.h:33-39 | repeated increments with reset compute a residue of the ring size |
| Indices.AtInjective | spu/src/spu_taskmanager.h:42-49 | two counters less than a lap apart have the same position only if they are equal, so comparing positions compares counters |
| Ring.RingContext.InitContext | shared/ring.c:3-12 | no ring for size 0, otherwise a new empty ring |
| Ring.RingContext.HasFree | shared/ring.c:19-30 | true exactly when stepping `front` would not meet `back` |
| Ring.RingContext.IncFront | shared/ring.c:36-41 | steps `front` by one with wrap and changes nothing else |
| Ring.RingContext.IncBack | shared/ring.c:42-47 | steps `back` by one with wrap and changes nothing else |
| Preservation.HasFreeIff | shared/ring.c:19-34 | outside a kick the ring's tests decide occupancy exactly: free slot, two free slots, entries remaining |
| Preservation.WriteKeeps | src/spefifo.c:237-254 | a word written to the open slot disturbs no slot that the SPU may still read |
| Preservation.ClearAcks | src/spefifo.c:141-146 | clearing the oldest ack takes the ack of the oldest unharvested retirement and touches no newer one |
| Preservation.LandAcks | spu/src/spu_taskmanager.c:196 | an ack that lands, in whatever order, fills the slot of its own index and no other |
| Preservation.RetirePuts | spu/src/spu_taskmanager.c:192-197 | a retirement puts its ack at the next index, whose ack slot is clear and which no other put targets |
| Preservation.StepKeeps | spu/src/spu_taskmanager.c:35-211 | every step of producer, harvester, SPU and DMA engine keeps the queue's invariant |
| Runs.ReachableInv | src/spefifo.c:126-269 | the invariant holds in every state of every interleaving from start-up |
| Runs.CountersInEveryRun | src/spefifo.c:213-269 | harvested <= retired <= fetched <= seen <= published <= harvested + n - 1 in every run; every index word is its counter's residue; the SPU's index comparisons decide the counters' order |
| Runs.KickWindowIsHarmless | src/spefifo.c:257-269 | `back` passes `front` by at most one and only inside `fifoKick`; outside it occupancy is 0..n-1 and the ring's tests are exact |
| Runs.TornAdvanceIsHarmless | shared/ring.c:42-47 | a host test that reads `back` between its increment and its reset errs only on the safe side |
| Runs.PublicationIsAtomic | src/spefifo.c:45-62 | across the separate writes of `state` and `count` what a poll takes from the two words is the position of the count published before the kick or of the one after it |
| Runs.PollTakes | spu/src/spu_taskmanager.c:35-41 | in every state a poll leaves `front` at the position of the count that it sees |
| Delivery.ExactlyOnceInOrder | spu/src/spu_taskmanager.c:43-55 | as meant, retired tasks are a prefix of the publications and harvested acks a prefix of the retired acks, in every run |
| Delivery.AsWrittenDeliversOneLate | spu/src/spu_taskmanager.c:49-53 | as written, retired tasks are a prefix of the start-up content followed by the publications |
| Delivery.AsWrittenDeliversIff | spu/src/spu_taskmanager.c:49-53 | as written, the retired tasks are the publications in order exactly when each of those publications repeats the start-up content of the last slot |
| Delivery.TransfersAreIntact | spu/src/spu_taskmanager.c:49 | while any word of a fetch is outstanding its slot holds the published words and the producer is not writing it |
| Delivery.AckSlotsAreExact | src/spefifo.c:139-150 | an ack slot is non-clear exactly when it is the slot of a retirement that has landed and is not harvested, and then holds that ack |
| Delivery.RetiresAtOwnIndex | spu/src/spu_taskmanager.c:192-197 | stage 4 puts the ack of retirement r at slot r mod n, which is the stepped `out_back` |
| Delivery.InFlight | spu/src/spu_taskmanager.c:187-199 | active contexts number exactly fetched minus retired, at most 4 and at most 3 between iterations; stage 1's context is free |
| Delivery.ContextsTravel | spu/src/spu_taskmanager.c:201-211 | a context meets stages 1 to 4 in four consecutive iterations and then stage 1 again, also across the wrap of `cycle` |
| SpuSide.Rotation | spu/src/spu_taskmanager.c:209 | the four stages use distinct contexts and `cycle--` hands each context to the next stage |
| Delivery.PipelineExitIsQuiet | spu/src/spu_taskmanager.c:210 | whenever the loop ends no context is active and the three task indices agree |
| Delivery.AdditionEndToEnd | spu/src/spu_taskmanager.c:134-145 | as meant, the ack harvested for any ADD publication carries k(a+b) + k(k-1)/2 modulo 2^32, where k is its word 2, 0 if negative, and a and b are its words 3 and 4 |
| Delivery.AdditionOneLate | spu/src/spu_taskmanager.c:134-145 | as written, that result arrives with the next publication's ack |
| Words.AddLoopClosedForm | spu/src/spu_taskmanager.c:139-142 | the loop that wraps at every step equals the exact sum wrapped once |
| Words.SumIsExact | spu/src/spu_taskmanager.c:134-145 | on every task the ADD command computes that sum from the task's own words 2, 3 and 4 |
| Answers.StepAnswers | spu/src/spu_taskmanager.c:119-149 | no step changes a context's ack but stage 3 on an active context, which stores the sum for an ADD and changes nothing for any other command |
| Answers.TaskIdsStay | spu/src/spu_taskmanager.c:119-199 | over any run the first word of a context's ack never changes |
| Answers.AnswerTravels | spu/src/spu_taskmanager.c:134-148 | from its fetch on, the ack harvested for a task is the one its context holds, with the sum for an ADD and as it is otherwise |
| Answers.OthersKeepAcks | spu/src/spu_taskmanager.c:147-148 | while no ADD is run, every context keeps its ack and every task is answered with one of them |
| Timeline.PipelineLength | spu/src/spu_taskmanager.c:201-211 | with k publications pending and no kick, the loop ends at iteration 1 if k = 0 and at iteration k + 3 otherwise, not before, in every interleaving, with all k retired |
| Timeline.NeverStuck | spu/src/spu_taskmanager.c:57-65 | in every reachable state the SPU or a transfer it waits for can move; it waits for no inactive context |
| Occupancy.SecondBegin | src/spefifo.c:213-220 | the test of a second begin always passes; the queue's counters and its whole invariant survive the call, and it is a run of the queue, exactly when two slots are free |
| Occupancy.SecondBeginHidesALap | src/spefifo.c:219-220 | otherwise the next kick makes the ring read empty, and the SPU's poll finds nothing exactly when it has fetched nothing of the whole lap |
| Occupancy.UnopenedKick | src/spefifo.c:257-269 | a kick with nothing open publishes and steps `front` all the same; counters and invariant survive exactly when a slot is free |
| Occupancy.RegisterIsRun | src/spefifo.c:345-359 | a registration is a run of the queue exactly when a slot was free and nothing open, or the open slot was the start of that registration |
| Occupancy.RegisterKeepsInvIff | src/spefifo.c:345-359 | counters and invariant survive a registration exactly when a slot is free or open |
| Occupancy.RegistrationHidesALap | src/spefifo.c:359 | on a full ring the registration's kick makes the ring read empty, and the SPU's poll finds nothing exactly when it has fetched nothing of the whole lap |
| Occupancy.RegistrationTakesTheOpenSlot | src/spefifo.c:347-359 | over an open slot one task is published, with the registration's words over the begun ones, and the begun command's own kick publishes the next slot unwritten |
| Harvesting.HarvestTakesTheRun | src/spefifo.c:141-150 | the harvest loop advances `back` by the longest run of non-clear acks, clears exactly those and changes no other |
| Harvesting.HarvestIsBounded | src/spefifo.c:141-150 | in every reachable state that run is at most the retired and unharvested, so at most n - 1 |
| Harvesting.HarvestTakesTheLanded | src/spefifo.c:139-150 | in every reachable state a pass takes exactly the unharvested retirements before the oldest unlanded one; with no put outstanding, all of them |
| Queues.QueuesAreIndependent | src/spefifo.c:136-152 | a run of all queues together is, seen from one queue, a run of that queue |
| Queues.DrainedIsStable | src/spefifo.c:301-314 | with no new kick a drained queue stays drained |
| Queues.FreeIsStable | src/spefifo.c:112 | with no new kick a ring that has a free slot keeps one |
| Queues.IsEmptyIsExact | src/spefifo.c:301-314 | scanning the rings one by one while everything but the producer runs: if the scan reports empty all queues are drained at its end, and if all were drained at its start it reports empty |
| Selection.SpinEnds | src/spefifo.c:108-118 | while the rings change, the spin ends within one round of any ring being free for good, at the first probe that finds a free ring |
| Selection.SpinIsPick | src/spefifo.c:108-118 | on rings that nothing changes it ends at the first free SPE after the last choice |
| Selection.FreeIsChosen | src/spefifo.c:108-118 | an SPE free at every selection is chosen within its cyclic distance, so once in any `spes` selections |
| Selection.CountsAreBalanced | src/spefifo.c:108-118 | while no ring is full any two SPEs are chosen equally often up to one |
| SlotBuilding.BeginAndAddsBuild | src/spefifo.c:213-255 | after a begin and any adds the open slot holds command, handle and the arguments that fit, in order; nothing else changed |
| SlotBuilding.SlotHoldsTask | src/spefifo.c:237-255 | in numbers: up to 29 arguments follow command and handle and the rest of the 32 words stays; of more, the first 29 are held and word 31 stays |
| SlotBuilding.AdditionBuilds | src/spefifo.c:288-291 | the slot that `fifo_addition` fills packs 0xC0DE0ADD, 0x1EE7C0DE, the count, 1 and 2, for any count |
| SpeQueue.Queue.constructor | src/spefifo.c:64-97 | all acks clear, indices and atomic zero, nothing open |
| HostFifo.Fifo.constructor | src/spefifo.c:166-201 | every SPE's queue is fresh, has fifo_size / 128 slots, reads empty, and is free exactly from two slots on |
| SpeQueue.Queue.Begin | src/spefifo.c:218-240 | the whole new host state of a begin |
| SpeQueue.Queue.Add | src/spefifo.c:249-255 | the whole new host state of an add, which a full slot ignores |
| SpeQueue.Queue.SendFront | src/spefifo.c:45-62 | `state` is 1 and `count` is `front` |
| SpeQueue.Queue.Kick | src/spefifo.c:257-269 | publishes `front`, marks the slot kicked and steps `front` |
| SpeQueue.Queue.Harvest | src/spefifo.c:139-150 | terminates with the host state of repeated clear-and-advance |
| SpeQueue.Queue.Register | src/spefifo.c:347-358 | the whole new host state of an untested registration |
| HostFifo.Fifo.SelectFifo | src/spefifo.c:100-124 | with some ring free it terminates on the first free ring cyclically after the last choice; all it passed are full |
| HostFifo.Fifo.Begin | src/spefifo.c:213-247 | begins on the selected SPE and leaves every other queue alone |
| HostFifo.Fifo.Addition | src/spefifo.c:286-293 | the selected SPE's published slot packs the addition; every other queue is unchanged |
| HostFifo.Fifo.IsEmpty | src/spefifo.c:301-314 | true exactly when no ring has remaining entries |
| HostFifo.Fifo.HarvestPass | src/spefifo.c:136-152 | one pass harvests every queue |
| HostFifo.Fifo.Noop | src/spefifo.c:273-284 | the selected SPE's published slot starts with 0x1337C0DE and the handle; every other queue is unchanged |
| HostFifo.Fifo.RegisterProgram | src/spefifo.c:336-363 | one registration, with both halves of the program's address, kicked on every SPE; returns the lower half |
| TaskManager.Manager.constructor | spu/src/spu_taskpipe.c:4-19 | all contexts inactive, their acks as found in memory, indices at the last slot, `cycle` 0 |
| TaskManager.StartUp | spu/src/spu_taskmanager.c:214-229 | a fresh queue and a new task manager, with no ack buffer that happens to hold the clear mark, are a start-up point of the transition system and an entry of `pipeline` |
| TaskManager.Manager.CheckTasks | spu/src/spu_taskmanager.c:35-41 | takes the published count once `state` is set |
| TaskManager.Manager.Stage1 | spu/src/spu_taskmanager.c:43-55 | the whole new SPU state of poll and fetch |
| TaskManager.Manager.Stage2 | spu/src/spu_taskmanager.c:57-65 | the tag wait completes the context's fetch and its previous put |
| TaskManager.Manager.AddUp | spu/src/spu_taskmanager.c:134-145 | the ADD loop computes the wrapped sum |
| TaskManager.Manager.Stage3 | spu/src/spu_taskmanager.c:119-149 | an ADD context's ack carries the sum; other contexts are unchanged |
| TaskManager.Manager.Stage4 | spu/src/spu_taskmanager.c:187-199 | steps `out_back`, frees the context and puts its ack at its entry |
| TaskManager.Manager.Pipeline | spu/src/spu_taskmanager.c:201-211 | is a run of the queue, terminates after exactly the stated iterations, retires everything published and restores its entry condition |
| Refinement.BeginIsRun | src/spefifo.c:213-247 | a begin is check, open and two word writes of the transition system |
| HostRuns.SecondBeginIsRun | src/spefifo.c:219-240 | a begin on an unkicked SPE with two free slots is a run that closes the open slot as it is |
| Refinement.KickIsRun | src/spefifo.c:257-269 | a kick is four steps and adds one publication, the words of the open slot |
| HostRuns.TaskIsRun | src/spefifo.c:213-269 | begin, adds and kick are a run that adds one publication: command, handle and up to 29 arguments, the slot's other words as they were |
| HostRuns.AdditionIsRun | src/spefifo.c:286-293 | `fifo_addition` is a run that appends one publication, which packs the addition |
| Refinement.HarvestIsRun | src/spefifo.c:139-150 | a harvest pass is a run of reads, clears and advances |
| Refinement.SettleIsRun | spu/src/spu_taskmanager.c:57-66 | a tag wait is a run of word arrivals and an ack landing |
| Refinement.IterationIsRun | spu/src/spu_taskmanager.c:204-208 | one loop iteration is a run |
| Draining.PipelineCompletes | spu/src/spu_taskmanager.c:201-211 | from any entry a schedule exists that retires everything published |
| Draining.HarvestTakesAll | src/spefifo.c:139-150 | with no put outstanding a harvest pass leaves every retirement harvested |
| Draining.QueueDrains | src/spefifo.c:316-330 | from any entry with nothing open, the queue can be drained without the producer: all kicked tasks retired and harvested, the ring empty, a slot free |
| Draining.AdditionCompletes | src/spefifo.c:286-293 | as meant, `fifo_addition(m)` can complete from any entry, and its harvested ack is then the next one and carries 3m + m(m-1)/2 modulo 2^32, or 0 for a negative m |
| Draining.NoopCompletes | src/spefifo.c:273-284 | as meant, a `fifoNoop` on a drained queue can complete, and its ack is one that a context held, as it was |
| Scenario.AsWrittenMissesFirstTask | spu/src/spu_taskmanager.c:49-53 | a run in which the first retirement is not the first publication |
| Scenario.RegistrationStallsFullRing | src/spefifo.c:345-359 | a reachable full ring on which a registration makes two kicked, unretired tasks invisible to host and SPU |
| Scenario.SecondBeginStallsRing | src/spefifo.c:213-220 | a reachable open ring on which a second begin and a kick make both tasks invisible |
| Scenario.RegistrationLosesNoop | src/spefifo.c:347-359 | a reachable begun no-op that a registration publishes in its own words |
| Scenario.BackOvertakesFront | src/spefifo.c:263-267 | a run in which `back` is one past `front` inside a kick, so the bound is tight |
| LinkedList.List.Add | shared/linkedlist.c:18-38 | keeps the list well-formed and appends the entry |
| LinkedList.List.Search | shared/linkedlist.c:46-57 | the cursor ends on the first match, or on the last node if there is none |
| LinkedList.List.Remove | shared/linkedlist.c:41-75 | removes the first match from the forward chain, ends and count, and says which back links are stale afterwards; a well-formed list stays so exactly when repaired or the last node was removed |
| LinkedList.List.LinksWithout | shared/linkedlist.c:59-67 | taking a node out leaves every back link as it was but its successor's, which becomes right or stale |
| LinkedList.List.NextEntry | shared/linkedlist.c:88-94 | moves the cursor one node and returns its entry, or nothing at the end |
| LinkedList.LookUp | spu/src/spu_taskmanager.c:152-159 | finds the first program with the id, or reports that there is none |
| LinkedList.EntriesAreConserved | shared/linkedlist.c:18-75 | in the entries that a run of appends and deletes leaves, each entry occurs as often as it was appended and not taken back |
| LinkedList.Replay | shared/linkedlist.c:18-75 | any sound run of adds and removes on a new list leaves appends minus first matches, the count, and well-formedness exactly when no link is stale, so always with the repair |
| LinkedList.Enumerate | shared/linkedlist.c:77-94 | first and next enumerate the entries once each, in order, also along stale back links |
| LinkedList.RepairedIsSound | shared/linkedlist.c:59-67 | with the repair a run is sound exactly when it deletes nothing from an empty list |
| LinkedList.NeighboursAsWritten | shared/linkedlist.c:59-61 | as written, deleting two neighbours front to back follows a link to freed memory, and back to front does not |

## Left out

- SPE and pthread start-up and stop, mailboxes, printing and sleeping: I/O; threads are the interleaved steps.
- Allocation failure, alignment and effective addresses: slots and acks are indexed arrays.
- The reservation loop of `send_front`: one store of `count`, which may be retried after the separate store of `state` (`KickRetry`); memory is sequentially consistent.
- Program loading and calling in stages 2 and 3: the program table is never assigned there (spu/src/spu_taskmanager.c:231), so a command other than ADD leaves its ack as it was, also NOOP, which stage 2 would look up. The list is modelled on its own.
- The SPU's `current_task`, `stage` and SNOOZE state: dead code.
- Stage 3's `res` starts at 0, as meant; the C variable is uninitialised.
- The SPU never writes the ack buffers' first word (Answers.TaskIdsStay), so an ack can be told from a clear one only by what memory happened to hold there; TaskManager.StartUp requires that this differs from the clear mark. The 64-bit callback word is unused.
- The comment on `fifoInit` says that the size is rounded up; the code rounds it down (src/spefifo.c:179), and so does HostFifo.Fifo.constructor. A size under one slot, for which the ring context is NULL, is excluded.
- HostFifo.Fifo.SelectFifo: requires some ring to be free, as nothing else runs during a method; while all are full the C loop spins until the harvester frees one, which Selection.SpinEnds covers.
- HostFifo.Fifo.Begin: the same, as it starts with the selection.
- HostFifo.Fifo.Addition: the same.
- HostFifo.Fifo.IsEmpty: states the answer with nothing else running; Queues.IsEmptyIsExact covers the scan with the rest running.
- Protocol: a second begin with one free slot, a kick without a begin and an untested registration are not steps; Occupancy says what they do. A `fifoAdd` after the kick of its slot, which writes into the published slot (src/spefifo.c:249-255), is not one either: words are written only while a slot is open.
- LinkedList.List.Remove: requires a non-empty list, as the code dereferences `first`, and that the node found has no stale back link, as the code would write to the freed node behind it.
- `fifoWait` repeats `fifoIsEmpty`; `fifoStop` is empty; example programs and packaging are not part of this model.
