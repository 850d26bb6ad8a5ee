# Verified models of the virtio CAN driver, psplash and the vhost-user devices

Dafny models of three components: the virtio CAN guest driver (`virtio_can.c`), the splash screen
renderer with its DRM backend (psplash, carried as patches), and the vhost-user console and CAN
devices (Rust). `dafny verify dfyconfig.toml` checks all of it.

How the models are built:

- Concurrency is a state machine. Each region under a lock, each callback and each access that
  another processor can get in between of is one step; theorems are about every interleaving.
  `NapiWakeup` cuts the driver finer than `VirtioCanTx` and `VirtioCanRx`, which take polls and
  interrupts as steps and are about what these steps keep.
- Code that changes state is a class. Its methods follow the code, and their contracts give the
  whole new state by a specification function of the old one; lemmas are about that function.
- What happens outside (device, guest, kernel calls, socket buffers) is a parameter: any device
  data, any order of completions, any failing call. The kernel hands out unused identifiers, in any
  way; a virtqueue is a split virtqueue (section 2.7 of VIRTIO 1.2) given by its free descriptors,
  its available and used buffers and its callback flag. The console control protocol is that of
  section 5.3.6 of VIRTIO 1.2.
- Pictures are stated by `Shows`: which pixels have which colour, all other bytes as before.
  `ShownPictureIsUnique` says that this fixes the buffer.

Where code and documentation disagree, or a promise does not hold, the model follows the code:

- The check that stops the transmit queue reads a count that may be out of date, so a stop can strand
  the queue until it is opened, restarted or resumed (`StopStallsIffRingDrained`, `StallHappens`,
  `StalledUntilStarted`); the failed-add path leaves the echo in the slot it frees, so a later message
  is echoed with a foreign frame (`OccupiedIffLeftBehind`, `CompletionEchoesOwnFrame`,
  `ForeignEchoHappens`), and an echo that cannot be stored goes missing unnoticed (`EchoCanBeMissing`); a
  suspend loses the indices of messages in flight (`SendsAgainIff`,
  `ExhaustionIsReachable`).
- A bus-off whose report is not accepted may be left pending with no poll to repeat it, and the device's
  further indications are then ignored (`ParkedIff`, `RefusedReportParks`).
- The flip leaves the older frame in the back buffer unless asked to synchronise, and the command
  reader of patch 0010 never asks (`EveryOtherCommandShows`, `AllCommandsShowIff`).
- `modeset_setup_dev` leaks both buffers when their sizes differ (`DestroyUndoesPrepareIff`,
  `SizeMismatchLeaks`).
- The measured height counts newlines, not lines (`InkBelowHeightIff`).
- The console takes a reply from its queue before it looks at the buffer for it (`ServeLosesIff`,
  `BadBufferLosesReplies`), and keeps buffers it has no reply for. A unit test of `vhu_console.rs`
  expects ten bytes for a control message; the code writes eight.
- The control queue of the CAN device panics on a request without a response descriptor
  (`CtrlPanicsIff`), and its transmit queue on every identifier that is not a standard one
  (`TxPanicsIff`, `ExtendedFramePanics`); it looks at flags that a mask may have cleared (`CheckFrame`).

## Model

| member | source | states |
|---|---|---|
| `NapiWakeup.NoWakeupIsLost` | meta-egvirt/recipes-kernel/kernel-module-virtio-can/files/virtio_can.c:95-117 | in every interleaving of device, interrupt handler and poller: unreaped used buffers imply that NAPI is scheduled, an interrupt is pending or being handled, the device has yet to look at callbacks that are on, or a poller still has its re-check ahead of it with a used index that moved; and an idle NAPI has callbacks on or a handler about to schedule it |
| `NapiWakeup.StepKeepsInv` | meta-egvirt/recipes-kernel/kernel-module-virtio-can/files/virtio_can.c:95-117 | every single step keeps the invariant behind that, including the comparison of used indices modulo 2^16 |
| `NapiWakeup.StepApproaches` | meta-egvirt/recipes-kernel/kernel-module-virtio-can/files/virtio_can.c:526-548 | while a used buffer waits, every step other than reaping or new work brings the reaping strictly closer |
| `NapiWakeup.WaitingBufferIsNeverStuck` | meta-egvirt/recipes-kernel/kernel-module-virtio-can/files/virtio_can.c:526-548 | while a used buffer waits, some step of the wake-up under way is enabled |
| `NapiWakeup.WaitingBufferIsReaped` | meta-egvirt/recipes-kernel/kernel-module-virtio-can/files/virtio_can.c:95-117 | bounded response: no stretch of an interleaving without new work passes more than Distance steps before a waiting buffer is reaped |
| `NapiWakeup.PollAloneOutcome` | meta-egvirt/recipes-kernel/kernel-module-virtio-can/files/virtio_can.c:526-540 | an uninterrupted poll reaps min(quota, waiting) buffers, and leaves NAPI idle with callbacks on if it ran out of buffers and no schedule was missed, else scheduled |
| `NapiWakeup.CompleteAloneIsSteps` | meta-egvirt/recipes-kernel/kernel-module-virtio-can/files/virtio_can.c:105-117 | the completion, with whatever arrived before it, is the protocol's steps: callbacks on and a token, the schedule bit given up, then callbacks off again after a missed schedule, or else the re-check of that token, which reschedules with callbacks off exactly if the used index moved |
| `NapiWakeup.CompleteAloneLosesNothing` | meta-egvirt/recipes-kernel/kernel-module-virtio-can/files/virtio_can.c:105-117 | a completion leaves NAPI scheduled if and only if a schedule was missed or a used buffer is unreaped, with callbacks off then and on otherwise |
| `NapiWakeup.PollAloneIsRun` | meta-egvirt/recipes-kernel/kernel-module-virtio-can/files/virtio_can.c:526-540 | a poll without interruption, whatever arrived before it, is a run of the steps the theorems above are about |
| `NapiWakeup.PollAloneLosesNothing` | meta-egvirt/recipes-kernel/kernel-module-virtio-can/files/virtio_can.c:526-540 | so it leaves NAPI scheduled whenever it leaves a used buffer |
| `NapiWakeup.InterruptAloneIsSteps` | meta-egvirt/recipes-kernel/kernel-module-virtio-can/files/virtio_can.c:542-548 | the interrupt callback is its steps, callbacks off before the schedule, and schedules if and only if something is used |
| `NapiWakeup.RecheckOutcome` | meta-egvirt/recipes-kernel/kernel-module-virtio-can/files/virtio_can.c:95-102 | a re-check compares 16 bits of the used index with its token, and schedules, or marks the schedule as missed, exactly if they differ |
| `NapiWakeup.CallbacksAreObeyed` | meta-egvirt/recipes-kernel/kernel-module-virtio-can/files/virtio_can.c:95-117 | step by step: an interrupt is raised only with callbacks on, and a schedule is marked as missed exactly if another holds it |
| `NapiWakeup.DevicePublishes` | meta-egvirt/recipes-kernel/kernel-module-virtio-can/files/virtio_can.c:95-117 | the device's part: one more used buffer, then a look at the callbacks |
| `NapiWakeup.AnythingMayHappen` | meta-egvirt/recipes-kernel/kernel-module-virtio-can/files/virtio_can.c:95-117 | and for the wake-up: the device, other schedulers and overtaken re-checks may step in at any time |
| `NapiWakeup.NapiQueue.NapiComplete` | meta-egvirt/recipes-kernel/kernel-module-virtio-can/files/virtio_can.c:105-117 | the completion method is prepare, done and re-check (or callbacks off again) in that order |
| `NapiWakeup.NapiQueue.RecheckLast` | meta-egvirt/recipes-kernel/kernel-module-virtio-can/files/virtio_can.c:95-102 | the re-check schedules exactly when the used index moved, and leaves a missed mark when somebody else holds the schedule bit |
| `NapiWakeup.NapiQueue.CompleteDone` | meta-egvirt/recipes-kernel/kernel-module-virtio-can/files/virtio_can.c:111 | napi_complete_done gives up the schedule bit, unless a schedule was missed meanwhile |
| `NapiWakeup.NapiQueue.EnableCbPrepare` | meta-egvirt/recipes-kernel/kernel-module-virtio-can/files/virtio_can.c:110 | callbacks go on and the token is the number of buffers reaped so far |
| `NapiWakeup.NapiQueue.Poll` | meta-egvirt/recipes-kernel/kernel-module-virtio-can/files/virtio_can.c:526-540 | the poll loop refines that function and returns min(quota, waiting) |
| `NapiWakeup.NapiQueue.Interrupt` | meta-egvirt/recipes-kernel/kernel-module-virtio-can/files/virtio_can.c:542-548 | the interrupt callback turns callbacks off and schedules or marks, unless nothing was used |
| `VirtioCanTx.SlotOwnership` | meta-egvirt/recipes-kernel/kernel-module-virtio-can/files/virtio_can.c:127-153 | in every interleaving, with completions between the two locked parts of a transmission: free, listed and lost indices are distinct and together exactly 0..127, free list length plus tx_inflight is echo_skb_max, tx_inflight is at most tx_limit, no BUG_ON fires and the free list is not empty when an index is taken |
| `VirtioCanTx.BugOnsFire` | meta-egvirt/recipes-kernel/kernel-module-virtio-can/files/virtio_can.c:127-153 | the BUG_ONs of the slot allocator fire on exactly a taken count of 128, an index outside 0..127 and a count of zero |
| `VirtioCanTx.CompletionCounts` | meta-egvirt/recipes-kernel/kernel-module-virtio-can/files/virtio_can.c:456-511 | one completion: the index becomes the next to be taken, its echo slot is emptied, and the message counts as sent below bus-off and as dropped from bus-off on |
| `VirtioCanTx.ExecutionKeepsOffer` | meta-egvirt/recipes-kernel/kernel-module-virtio-can/files/virtio_can.c:412-426 | in every interleaving the device holds messages in the order in which they were queued |
| `VirtioCanTx.ReadInOrderOfCompletion` | meta-egvirt/recipes-kernel/kernel-module-virtio-can/files/virtio_can.c:456-511 | in every interleaving without a suspend, the messages read are those the device completed, in that order and once each, up to those still on the used ring |
| `VirtioCanTx.InterfaceEffects` | meta-egvirt/recipes-kernel/kernel-module-virtio-can/files/virtio_can.c:257-311 | what open, close, restart, bus-off, suspend and resume leave of controller state, interface and queue |
| `VirtioCanTx.AnythingMayHappen` | meta-egvirt/recipes-kernel/kernel-module-virtio-can/files/virtio_can.c:375-511 | and so for the transmit path: any order of completions, any failing call, controller and interface at any time between transmissions |
| `VirtioCanTx.FlowControlSuffices` | meta-egvirt/recipes-kernel/kernel-module-virtio-can/files/virtio_can.c:1013-1023 | in every interleaving the ring has room for the message about to be added, with one or two descriptors per message, so an add fails only if the ring is broken; that the limit is no lower than this needs is LimitIsLargestWindow |
| `VirtioCanTx.LimitIsLargestWindow` | meta-egvirt/recipes-kernel/kernel-module-virtio-can/files/virtio_can.c:1013-1023 | tx_limit is the largest number of messages, 128 at most, whose descriptors (one with an indirect table, else two) fit the ring |
| `VirtioCanTx.WindowIsFilled` | meta-egvirt/recipes-kernel/kernel-module-virtio-can/files/virtio_can.c:376-426 | for every number of messages that fits so, a run from probe puts that many on the ring one after the other, and the check then stops the queue if and only if not one more would fit |
| `VirtioCanTx.NothingSentIsLost` | meta-egvirt/recipes-kernel/kernel-module-virtio-can/files/virtio_can.c:456-520 | in every interleaving: adds = tx_packets + dropped echoes + messages on the ring + messages lost in a suspend, all messages on the ring are listed, and every message ever allocated is listed or has left the list exactly once |
| `VirtioCanTx.StepKeepsInv` | meta-egvirt/recipes-kernel/kernel-module-virtio-can/files/virtio_can.c:375-426 | every step of the driver and the device keeps the laws on slots, serial numbers, list and flow |
| `VirtioCanTx.LeadsExtendsExecution` | meta-egvirt/recipes-kernel/kernel-module-virtio-can/files/virtio_can.c:375-426 | whatever steps lead on from the end of a run make a run, so the statements about some schedule are about runs from probe |
| `VirtioCanTx.LostOnlyGrows` | meta-egvirt/recipes-kernel/kernel-module-virtio-can/files/virtio_can.c:870-914 | indices given up by a suspend with messages in flight never come back |
| `VirtioCanTx.AdmittedIffBelowLimit` | meta-egvirt/recipes-kernel/kernel-module-virtio-can/files/virtio_can.c:376-385 | a transmission is admitted if and only if listed plus lost messages are below tx_limit |
| `VirtioCanTx.ExhaustedSendsNothing` | meta-egvirt/recipes-kernel/kernel-module-virtio-can/files/virtio_can.c:904-910 | in every run, once tx_limit messages were lost in suspends, no message is ever added to the ring again |
| `VirtioCanTx.SendsAgainIff` | meta-egvirt/recipes-kernel/kernel-module-virtio-can/files/virtio_can.c:376-426 | from an open, idle, started queue some schedule adds another message to the ring if and only if fewer messages were lost in suspends than tx_limit |
| `VirtioCanTx.ExhaustionIsReachable` | meta-egvirt/recipes-kernel/kernel-module-virtio-can/files/virtio_can.c:870-914 | a run from probe that exhausts the window: one message on a ring of one slot, a suspend and a resume |
| `VirtioCanTx.CompletionEchoesOwnFrame` | meta-egvirt/recipes-kernel/kernel-module-virtio-can/files/virtio_can.c:402-504 | in every run, a completed message was put into its echo slot once, and finds its own frame there if and only if the frame could be stored then, the slot was not left behind by a failed add, and no close or restart emptied the slots since |
| `VirtioCanTx.OccupiedIffLeftBehind` | meta-egvirt/recipes-kernel/kernel-module-virtio-can/files/virtio_can.c:402-424 | in every run, the free indices whose echo slot is occupied are exactly those on which an add failed with the slot not emptied since by a completion, a close or a restart |
| `VirtioCanTx.FailedAddSpoilsSlot` | meta-egvirt/recipes-kernel/kernel-module-virtio-can/files/virtio_can.c:412-424 | the failing add returns the index to the head of the free list with the echo still in its slot |
| `VirtioCanTx.EchoedIffSlotWasEmpty` | meta-egvirt/recipes-kernel/kernel-module-virtio-can/files/virtio_can.c:402-407 | in every run, a frame put into an echo slot is the one found there if and only if it could be stored and the slot was empty |
| `VirtioCanTx.HeldKeepsEcho` | meta-egvirt/recipes-kernel/kernel-module-virtio-can/files/virtio_can.c:456-511 | whatever adds have failed, a message on the ring before and after a step keeps its own echo, or a foreign one, unless the step empties all slots |
| `VirtioCanTx.NoFailureNoForeignEcho` | meta-egvirt/recipes-kernel/kernel-module-virtio-can/files/virtio_can.c:491-504 | in a run in which every frame could be stored, no add failed, and the interface was neither closed nor restarted, every completed message finds its own frame |
| `VirtioCanTx.ForeignEchoHappens` | meta-egvirt/recipes-kernel/kernel-module-virtio-can/files/virtio_can.c:412-424 | a run from probe, with a failed add, a suspend and a resume, in which a completed message finds the frame of another |
| `VirtioCanTx.EchoCanBeMissing` | meta-egvirt/recipes-kernel/kernel-module-virtio-can/files/virtio_can.c:402-407 | a run from probe, without failed adds, close or restart, in which a message completes with an empty slot because its frame could not be stored |
| `VirtioCanTx.StallStays` | meta-egvirt/recipes-kernel/kernel-module-virtio-can/files/virtio_can.c:376-380 | a stalled queue (stopped, ring empty, nothing to wake it) stays so, and sends nothing, in every step but an open, a restart or a resume |
| `VirtioCanTx.StalledUntilStarted` | meta-egvirt/recipes-kernel/kernel-module-virtio-can/files/virtio_can.c:376-380 | so in every run up to the next open, restart or resume |
| `VirtioCanTx.StallEnds` | meta-egvirt/recipes-kernel/kernel-module-virtio-can/files/virtio_can.c:257-281 | closing and opening ends a stall, and so does suspending and resuming; a restart, possible exactly in bus-off, ends it at once |
| `VirtioCanTx.WokenIffNotStalled` | meta-egvirt/recipes-kernel/kernel-module-virtio-can/files/virtio_can.c:513-517 | a stopped queue is started in some run without open, restart or resume if and only if it is not stalled |
| `VirtioCanTx.StoppedQueueIsNeverStuck` | meta-egvirt/recipes-kernel/kernel-module-virtio-can/files/virtio_can.c:513-517 | in a stopped queue that is not stalled a completion, a read or a wake is possible |
| `VirtioCanTx.WokenWithinMeasure` | meta-egvirt/recipes-kernel/kernel-module-virtio-can/files/virtio_can.c:513-517 | bounded response: a run that neither starts the queue nor takes it down from outside wakes it before as many completions and reads have passed as three times the messages with the device plus twice the used ones plus a wake that is due |
| `VirtioCanTx.StopStallsIffRingDrained` | meta-egvirt/recipes-kernel/kernel-module-virtio-can/files/virtio_can.c:376-385 | stopping the queue strands it if and only if tx_inflight has meanwhile fallen to the messages lost in suspends and no wake is due |
| `VirtioCanTx.AnyStopCanStall` | meta-egvirt/recipes-kernel/kernel-module-virtio-can/files/virtio_can.c:376-385 | from every state about to stop the queue some schedule, without open, restart or resume, strands it |
| `VirtioCanTx.StallHappens` | meta-egvirt/recipes-kernel/kernel-module-virtio-can/files/virtio_can.c:376-385 | a run from probe on a ring of one slot that ends in a stall |
| `VirtioCanTx.StallFurther` | meta-egvirt/recipes-kernel/kernel-module-virtio-can/files/virtio_can.c:376-385 | every run that is about to stop the queue can go on to a stall |
| `VirtioCanTx.StopIsReachable` | meta-egvirt/recipes-kernel/kernel-module-virtio-can/files/virtio_can.c:376-380 | such a state is reached from probe on a ring of one slot |
| `VirtioCanTx.TxPriv.constructor` | meta-egvirt/recipes-kernel/kernel-module-virtio-can/files/virtio_can.c:974-977 | probe fills the free list with 0..127 in order and nothing else is in use |
| `VirtioCanTx.TxPriv.AllocIdx` | meta-egvirt/recipes-kernel/kernel-module-virtio-can/files/virtio_can.c:127-142 | takes the head of the free list, counts it, and crashes at echo_skb_max |
| `VirtioCanTx.TxPriv.FreeIdx` | meta-egvirt/recipes-kernel/kernel-module-virtio-can/files/virtio_can.c:144-153 | puts the index at the head of the free list, or crashes on a bad index or count |
| `VirtioCanTx.TxPriv.Reserve` | meta-egvirt/recipes-kernel/kernel-module-virtio-can/files/virtio_can.c:393-399 | the first locked region and its BUG_ON as one step |
| `VirtioCanTx.TxPriv.CheckLimit` | meta-egvirt/recipes-kernel/kernel-module-virtio-can/files/virtio_can.c:376 | the limit check as a step of its own: what it read may be out of date when it is acted on |
| `VirtioCanTx.TxPriv.PutEcho` | meta-egvirt/recipes-kernel/kernel-module-virtio-can/files/virtio_can.c:402-407 | an occupied echo slot keeps its frame; an empty one takes the new if it can be stored, and a failure to is ignored |
| `VirtioCanTx.TxPriv.AddToRing` | meta-egvirt/recipes-kernel/kernel-module-virtio-can/files/virtio_can.c:409-426 | the second locked region: the message goes on the ring, or off the list with its index returned and the queue about to stop |
| `VirtioCanTx.TxPriv.Unlink` | meta-egvirt/recipes-kernel/kernel-module-virtio-can/files/virtio_can.c:506 | list_del: exactly the first occurrence leaves the list, the others keep their order |
| `VirtioCanTx.TxPriv.EmptyList` | meta-egvirt/recipes-kernel/kernel-module-virtio-can/files/virtio_can.c:904-910 | the loop frees every listed message once, from the head on |
| `VirtioCanTx.TxPriv.ReadQueue` | meta-egvirt/recipes-kernel/kernel-module-virtio-can/files/virtio_can.c:456-511 | one completion: buffer taken, echo handed on or dropped, message unlisted, index freed; false if there was none |
| `VirtioCanTx.TxPriv.Suspend` | meta-egvirt/recipes-kernel/kernel-module-virtio-can/files/virtio_can.c:870-914 | a suspend empties ring and list, freeing every message and returning no index; the queue stops if the interface is up |
| `VirtioCanTx.TxPriv.Resume` | meta-egvirt/recipes-kernel/kernel-module-virtio-can/files/virtio_can.c:1083-1094 | a resume starts the queue if the interface is up |
| `VirtioCanTx.TxPriv.Open` | meta-egvirt/recipes-kernel/kernel-module-virtio-can/files/virtio_can.c:272-281 | opening starts the queue |
| `VirtioCanTx.TxPriv.Close` | meta-egvirt/recipes-kernel/kernel-module-virtio-can/files/virtio_can.c:301-311 | closing stops the queue and empties the echo slots, but leaves messages, indices and ring alone |
| `VirtioCanTx.TxPriv.SetModeStart` | meta-egvirt/recipes-kernel/kernel-module-virtio-can/files/virtio_can.c:257-269 | a restart, in bus-off, starts the queue with empty echo slots |
| `VirtioCanCodec.BuildTxMessage` | meta-egvirt/recipes-kernel/kernel-module-virtio-can/files/virtio_can.c:349-371 | the field-by-field encoder yields exactly the bytes of Encode |
| `VirtioCanCodec.ParseRxMessage` | meta-egvirt/recipes-kernel/kernel-module-virtio-can/files/virtio_can.c:573-675 | the decoder with its chain of checks yields exactly Decode |
| `VirtioCanCodec.CheckHeader` | meta-egvirt/recipes-kernel/kernel-module-virtio-can/files/virtio_can.c:583-663 | the chain of flag and negotiation checks, in order, with the identifier and length they leave |
| `VirtioCanCodec.RoundTrip` | meta-egvirt/recipes-kernel/kernel-module-virtio-can/files/virtio_can.c:349-371 | for every valid frame, whatever was in the receive buffer before: the encoding read back as a received message gives the same id, type and length, and the same data unless it is a remote request |
| `VirtioCanCodec.DeliveredIsValid` | meta-egvirt/recipes-kernel/kernel-module-virtio-can/files/virtio_can.c:583-675 | whatever bytes and length the device writes, a delivered frame satisfies the id, length and negotiation limits |
| `VirtioCanCodec.ExactlyValidFramesReturn` | meta-egvirt/recipes-kernel/kernel-module-virtio-can/files/virtio_can.c:573-675 | a frame comes back under its own id, type and length if and only if it is valid |
| `VirtioCanCodec.EncodeLayout` | meta-egvirt/recipes-kernel/kernel-module-virtio-can/files/virtio_can.c:349-371 | each byte sent: type 1, the flag bits of byte 5, the identifier in bytes 8 to 11, the payload (zero for a remote request) from byte 12 |
| `VirtioCanCodec.DecodeLayout` | meta-egvirt/recipes-kernel/kernel-module-virtio-can/files/virtio_can.c:573-663 | which buffers are too small, of another type, or delivered, by their bytes |
| `VirtioCanCodec.DeliveredLayout` | meta-egvirt/recipes-kernel/kernel-module-virtio-can/files/virtio_can.c:583-675 | the frame delivered, by the bytes of the buffer: type, length cut to 8 or 64, identifier of 11 or 29 bits with its flags, data |
| `VirtioCanRx.BuffersAreConserved` | meta-egvirt/recipes-kernel/kernel-module-virtio-can/files/virtio_can.c:160-173 | after any number of polls over arbitrary device data the ring holds exactly the min(128, ring size) receive buffers, once each |
| `VirtioCanRx.BusoffOncePerStart` | meta-egvirt/recipes-kernel/kernel-module-virtio-can/files/virtio_can.c:691-728 | between two starts, stops, suspends or resumes the bus_off count rises at most once and at most one report is accepted; it rises exactly when the state reaches bus-off; a pending bus-off stays pending until a report is accepted; from error-passive on no frame is delivered |
| `VirtioCanRx.BusoffBudget` | meta-egvirt/recipes-kernel/kernel-module-virtio-can/files/virtio_can.c:691-728 | the exact budget behind it: transitions made plus transitions left, and reports accepted plus reports left, stay constant over any such stretch |
| `VirtioCanRx.IndicationReachesPoll` | meta-egvirt/recipes-kernel/kernel-module-virtio-can/files/virtio_can.c:691-808 | in every run, a bus-off indication while the bus is on is acted on by the first poll after it, if the controller is not started, stopped or suspended before: nothing is delivered from the indication on, the transition is counted once, and it stays pending exactly if the report is not accepted |
| `VirtioCanRx.PollTurnsOff` | meta-egvirt/recipes-kernel/kernel-module-virtio-can/files/virtio_can.c:736-752 | a poll with a bus-off pending turns the controller off before it reads any buffer |
| `VirtioCanRx.ParkedIff` | meta-egvirt/recipes-kernel/kernel-module-virtio-can/files/virtio_can.c:719-806 | in every run, a bus-off is pending with no poll under way if and only if a poll whose report was not accepted left quota, or a suspend came with the interface down, and since then nothing was filled, no interrupt came, and the controller was not started or stopped |
| `VirtioCanRx.ParkedIgnoresIndications` | meta-egvirt/recipes-kernel/kernel-module-virtio-can/files/virtio_can.c:797-801 | then further indications of the device change nothing |
| `VirtioCanRx.RefusedReportParks` | meta-egvirt/recipes-kernel/kernel-module-virtio-can/files/virtio_can.c:719-727 | it happens: a run from probe that starts the controller, indicates bus-off and has the report refused |
| `VirtioCanRx.OnlyValidFramesDelivered` | meta-egvirt/recipes-kernel/kernel-module-virtio-can/files/virtio_can.c:573-681 | in every run every frame handed to the stack is valid for what was negotiated |
| `VirtioCanRx.BufferOutcome` | meta-egvirt/recipes-kernel/kernel-module-virtio-can/files/virtio_can.c:573-688 | a frame that decodes below error-passive and gets a socket buffer is handed up, and counted if the stack accepts it; a refused one, or one without a socket buffer, counts as dropped; the buffer is put back last in every case |
| `VirtioCanRx.PollDeliversAll` | meta-egvirt/recipes-kernel/kernel-module-virtio-can/files/virtio_can.c:736-752 | a poll hands up the frames of the filled buffers, in order and as many as its quota allows, counts those accepted, and stays scheduled only if the quota was used up |
| `VirtioCanRx.SentFrameIsReceived` | meta-egvirt/recipes-kernel/kernel-module-virtio-can/files/virtio_can.c:349-681 | a valid frame that the device returns as the transmit side encoded it reaches the stack in the next poll, under its own id, type and length, and with its data unless it is a remote request |
| `VirtioCanRx.NothingWhileStopped` | meta-egvirt/recipes-kernel/kernel-module-virtio-can/files/virtio_can.c:285-295 | in every run nothing is delivered between a stop and the next start, stop, suspend or resume |
| `VirtioCanRx.ControllerEffects` | meta-egvirt/recipes-kernel/kernel-module-virtio-can/files/virtio_can.c:240-310 | what start, stop, suspend, resume and a bus-off report leave of controller state and pending flag |
| `VirtioCanRx.AnythingMayHappen` | meta-egvirt/recipes-kernel/kernel-module-virtio-can/files/virtio_can.c:736-808 | runs leave out nothing the device, the stack or the user may do: which steps are possible in each state |
| `VirtioCanRx.IndicationIs` | meta-egvirt/recipes-kernel/kernel-module-virtio-can/files/virtio_can.c:769-808 | an event, among any others, counts as a bus-off indication if and only if it has two bytes or more and type 0x0301, and then sets the flag and schedules a poll, unless one is pending or the bus is off; without any nothing changes |
| `VirtioCanRx.RxPriv.constructor` | meta-egvirt/recipes-kernel/kernel-module-virtio-can/files/virtio_can.c:820-831 | the fill loop posts min(128, ring size) distinct buffers |
| `VirtioCanRx.RxPriv.ReadQueue` | meta-egvirt/recipes-kernel/kernel-module-virtio-can/files/virtio_can.c:555-688 | one used buffer is decoded, counted and put back, and putting it back cannot fail |
| `VirtioCanRx.RxPriv.AddInbuf` | meta-egvirt/recipes-kernel/kernel-module-virtio-can/files/virtio_can.c:160-173 | a full ring refuses a buffer, any other posts it last |
| `VirtioCanRx.RxPriv.Receive` | meta-egvirt/recipes-kernel/kernel-module-virtio-can/files/virtio_can.c:573-681 | one filled buffer delivers at most one frame, and the packet and drop counts agree with that; which frame, and that it is delivered, is BufferOutcome |
| `VirtioCanRx.RxPriv.StartController` | meta-egvirt/recipes-kernel/kernel-module-virtio-can/files/virtio_can.c:238-239 | starting clears a pending bus-off and sets the state to error-active |
| `VirtioCanRx.RxPriv.StopController` | meta-egvirt/recipes-kernel/kernel-module-virtio-can/files/virtio_can.c:293-294 | stopping clears a pending bus-off and sets the state to stopped |
| `VirtioCanRx.RxPriv.HandleBusoffReport` | meta-egvirt/recipes-kernel/kernel-module-virtio-can/files/virtio_can.c:691-728 | the bus-off report as a step: state, counters and pending flag for each outcome of the report |
| `VirtioCanRx.RxPriv.RxPoll` | meta-egvirt/recipes-kernel/kernel-module-virtio-can/files/virtio_can.c:736-752 | a poll is a bus-off report and then the recycling of as many used buffers as the quota leaves; work done is at most a positive quota, and less only if the queue was emptied, and then the poll is no longer scheduled |
| `VirtioCanRx.RxPriv.EvindIntr` | meta-egvirt/recipes-kernel/kernel-module-virtio-can/files/virtio_can.c:769-808 | the loop over event indications sets the pending flag and schedules a poll unless one was pending or the bus is off |
| `PsplashCanvas.RotationIsBijective` | meta-agl-drm-lease/recipes-core/psplash/files/0006-Extract-plot-pixel-from-psplash-fb.patch:69-87 | at every angle, logical pixels of the canvas set up by psplash_fb_new and raster positions determine each other, and exactly the pixels on the canvas are placed on the raster |
| `PsplashCanvas.Orientation` | meta-agl-drm-lease/recipes-core/psplash/files/0006-Extract-plot-pixel-from-psplash-fb.patch:69-87 | the sense of rotation: in which corner of the raster the picture starts at each angle, and how many bytes away the pixels to the right and below are |
| `PsplashCanvas.PixelInBuffer` | meta-agl-drm-lease/recipes-core/psplash/files/0006-Extract-plot-pixel-from-psplash-fb.patch:54-87 | every pixel of a canvas that fits its raster is stored inside stride * real_height bytes |
| `PsplashCanvas.PixelsApart` | meta-agl-drm-lease/recipes-core/psplash/files/0006-Extract-plot-pixel-from-psplash-fb.patch:54-87 | distinct pixels of such a canvas are stored in disjoint bytes |
| `PsplashCanvas.UnswappedFitsIff` | meta-agl-drm-lease/recipes-core/psplash/files/0006-Extract-plot-pixel-from-psplash-fb.patch:336-346 | whatever its size, a canvas lies on its raster if and only if its sides, exchanged at 90 and 270 degrees, fit |
| `PsplashCanvas.FastPathMatchesGeneric` | meta-agl-drm-lease/recipes-core/psplash/files/0006-Extract-plot-pixel-from-psplash-fb.patch:89-161 | for the four detected pixel layouts the fast paths store the bytes the generic path would store, at 16 bits per pixel for the 565 and at 32 for the 888 layouts |
| `PsplashCanvas.FastPathMatchesGenericIff` | meta-agl-drm-lease/recipes-core/psplash/files/0006-Extract-plot-pixel-from-psplash-fb.patch:89-161 | they agree on every colour if and only if the depth is that one, or none that the fast paths store |
| `PsplashCanvas.StoredBytes` | meta-agl-drm-lease/recipes-core/psplash/files/0006-Extract-plot-pixel-from-psplash-fb.patch:89-127 | the bytes of the fast paths: blue, green, red or red, green, blue, or 5, 6 and 5 bits of them in two bytes, the low one first; nothing at other depths |
| `PsplashCanvas.GenericBits` | meta-agl-drm-lease/recipes-core/psplash/files/0006-Extract-plot-pixel-from-psplash-fb.patch:128-161 | the generic word, bit by bit: each component's top bits in its field |
| `PsplashCanvas.StoredGeneric` | meta-agl-drm-lease/recipes-core/psplash/files/0006-Extract-plot-pixel-from-psplash-fb.patch:128-161 | that word is stored low byte first at 16 or 32 bits per pixel, and nothing at other depths |
| `PsplashPainting.PaintShowsLastPlot` | meta-agl-drm-lease/recipes-core/psplash/files/0006-Extract-plot-pixel-from-psplash-fb.patch:58-161 | after any list of plots each pixel of the canvas holds the bytes of the last plot at it, or what it held before |
| `PsplashPainting.PaintKeepsPadding` | meta-agl-drm-lease/recipes-core/psplash/files/0006-Extract-plot-pixel-from-psplash-fb.patch:58-161 | no plot touches bytes that belong to no pixel |
| `PsplashPainting.ShownPictureIsUnique` | meta-agl-drm-lease/recipes-core/psplash/files/0006-Extract-plot-pixel-from-psplash-fb.patch:58-161 | pixels and padding determine the buffer, so the contracts below in terms of Shows fix every byte |
| `PsplashDrawing.Canvas.PlotPixel` | meta-agl-drm-lease/recipes-core/psplash/files/0006-Extract-plot-pixel-from-psplash-fb.patch:58-161 | the imperative pixel plotter with its switches on angle, layout and depth changes the buffer as Plotted says: clipped, at the rotated offset |
| `PsplashDrawing.Canvas.OffsetOf` | meta-agl-drm-lease/recipes-core/psplash/files/0006-Extract-plot-pixel-from-psplash-fb.patch:72-87 | the switch on the angle yields the offset of the rotated position, which Orientation gives for each angle |
| `PsplashDrawing.Canvas.BytesOf` | meta-agl-drm-lease/recipes-core/psplash/files/0006-Extract-plot-pixel-from-psplash-fb.patch:89-161 | the switches on layout and depth, with their shifts and ors, yield the bytes of the colour |
| `PsplashDrawing.Canvas.DrawRect` | meta-agl-drm-lease/recipes-core/psplash/files/0007-Extract-draw-rect-image-from-psplash-fb.patch:27-42 | for every position and size, negative ones included, exactly the pixels of the rectangle on the canvas get the colour and no other byte changes |
| `PsplashDrawing.RectPlotsPaintRect` | meta-agl-drm-lease/recipes-core/psplash/files/0007-Extract-draw-rect-image-from-psplash-fb.patch:39-41 | the plots of the two loops, in row-major order, are exactly the pixels of the rectangle |
| `PsplashDrawing.RectIsExact` | meta-agl-drm-lease/recipes-core/psplash/files/0007-Extract-draw-rect-image-from-psplash-fb.patch:27-42 | row by row plotting shows the clipped rectangle and nothing else |
| `PsplashDrawing.RectByPixel` | meta-agl-drm-lease/recipes-core/psplash/files/0007-Extract-draw-rect-image-from-psplash-fb.patch:27-42 | what Shows means for a rectangle: its pixels hold the bytes of the colour, all others what they held |
| `PsplashDrawing.Canvas.DrawImage` | meta-agl-drm-lease/recipes-core/psplash/files/0007-Extract-draw-rect-image-from-psplash-fb.patch:44-95 | the fused decode-and-draw loop terminates and shows exactly decode-then-blit: decoded pixel k at (x + k mod W, y + k div W), W = ceil(rowstride / bytes per pixel), skipping zero alpha, columns beyond the image width and clipped pixels; no other byte changes |
| `PsplashDrawing.ImagePlotsPaintImage` | meta-agl-drm-lease/recipes-core/psplash/files/0007-Extract-draw-rect-image-from-psplash-fb.patch:73-75 | the plots in stream order paint the image defined by position |
| `PsplashDrawing.ImageIsExact` | meta-agl-drm-lease/recipes-core/psplash/files/0007-Extract-draw-rect-image-from-psplash-fb.patch:44-95 | drawing the decoded pixels in order shows the image and nothing else |
| `PsplashDrawing.ImageByPixel` | meta-agl-drm-lease/recipes-core/psplash/files/0007-Extract-draw-rect-image-from-psplash-fb.patch:44-95 | what Shows means for an image: pixel dy * w + dx at (x + dx, y + dy) if visible and within the image width, w being the fewest pixels with the bytes of the row stride; all others as before |
| `PsplashDrawing.Canvas.DrawRun` | meta-agl-drm-lease/recipes-core/psplash/files/0007-Extract-draw-rect-image-from-psplash-fb.patch:71-77 | the loop over a run draws its pixel that many times and leaves dx, dy after it |
| `PsplashDrawing.Canvas.DrawLiteral` | meta-agl-drm-lease/recipes-core/psplash/files/0007-Extract-draw-rect-image-from-psplash-fb.patch:85-92 | the loop over a literal draws each of its pixels, stops early at the limit, and leaves p, dx, dy after them |
| `PsplashDrawing.NextPosition` | meta-agl-drm-lease/recipes-core/psplash/files/0007-Extract-draw-rect-image-from-psplash-fb.patch:75 | stepping dx and dy by the byte count of the line keeps them at k mod W and k div W |
| `PsplashRle.DecodeReadsStream` | meta-agl-drm-lease/recipes-core/psplash/files/0007-Extract-draw-rect-image-from-psplash-fb.patch:60-94 | every stream of runs and literals ended by a zero byte, no longer than the limit, decodes to what its packets mean |
| `PsplashRle.PacketForm` | meta-agl-drm-lease/recipes-core/psplash/files/0007-Extract-draw-rect-image-from-psplash-fb.patch:64-82 | what an encoder may write: a length of 1 to 127 with the top bit set before one pixel, or clear before that many |
| `PsplashRle.PacketsInTurn` | meta-agl-drm-lease/recipes-core/psplash/files/0007-Extract-draw-rect-image-from-psplash-fb.patch:60-94 | every stream, well formed or not: reading ends at the limit or at a length of zero, a run takes one pixel however near the limit, and a stream that ends before fails |
| `PsplashRle.LiteralReads` | meta-agl-drm-lease/recipes-core/psplash/files/0007-Extract-draw-rect-image-from-psplash-fb.patch:79-93 | each pixel of a literal is at its multiple of the bytes per pixel |
| `PsplashRle.LiteralCounts` | meta-agl-drm-lease/recipes-core/psplash/files/0007-Extract-draw-rect-image-from-psplash-fb.patch:79-93 | a literal reads its first pixel in any case and the others up to the limit, and leaves stream and budget after them |
| `PsplashRle.LiteralFails` | meta-agl-drm-lease/recipes-core/psplash/files/0007-Extract-draw-rect-image-from-psplash-fb.patch:79-93 | and it fails only at a pixel before the limit whose bytes are not all there |
| `PsplashRle.TexelLayout` | meta-agl-drm-lease/recipes-core/psplash/files/0007-Extract-draw-rect-image-from-psplash-fb.patch:66-75 | a pixel is red, green, blue and, in four bytes, an alpha that hides it if zero |
| `PsplashRle.DecodesForInstance` | meta-agl-drm-lease/recipes-core/psplash/files/0007-Extract-draw-rect-image-from-psplash-fb.patch:60-94 | a stream of a run of two and one literal pixel, byte by byte |
| `PsplashDrawing.EncodedImageIsDecoded` | meta-agl-drm-lease/recipes-core/psplash/files/0007-Extract-draw-rect-image-from-psplash-fb.patch:58-63 | so DrawImage applies to every such image no longer than rowstride * height, and draws its meaning |
| `PsplashText.FontGlyph` | meta-agl-drm-lease/recipes-core/psplash/files/0008-Extract-draw-font-from-psplash-fb.patch:39-58 | for a glyph in the font the search terminates with the width and the bitmap of the matching entry |
| `PsplashText.FindIsFirst` | meta-agl-drm-lease/recipes-core/psplash/files/0008-Extract-draw-font-from-psplash-fb.patch:47-54 | an entry is found if and only if it matches, and every entry before it in its group is neither zero nor a match |
| `PsplashText.GlyphLayout` | meta-agl-drm-lease/recipes-core/psplash/files/0008-Extract-draw-font-from-psplash-fb.patch:39-58 | where a glyph is: the group of the masked code is searched for an entry that agrees in the other bits, whose masked bits are the width, and whose next word says where the rows are |
| `PsplashText.AndBits` | meta-agl-drm-lease/recipes-core/psplash/files/0008-Extract-draw-font-from-psplash-fb.patch:42-55 | the mask works bit by bit |
| `PsplashText.DrawableIff` | meta-agl-drm-lease/recipes-core/psplash/files/0008-Extract-draw-font-from-psplash-fb.patch:113-124 | a text can be drawn if every character is a newline or has a glyph |
| `PsplashText.TextSize` | meta-agl-drm-lease/recipes-core/psplash/files/0008-Extract-draw-font-from-psplash-fb.patch:60-90 | terminates; the width is the largest column any character starts or ends at, over all lines; the height is that of the newlines, or of one line |
| `PsplashText.DrawText` | meta-agl-drm-lease/recipes-core/psplash/files/0008-Extract-draw-font-from-psplash-fb.patch:92-141 | terminates and inks exactly the set bits of each glyph at the column and line of its character, clipped to the canvas; no other byte changes |
| `PsplashLayout.TextIsExact` | meta-agl-drm-lease/recipes-core/psplash/files/0008-Extract-draw-font-from-psplash-fb.patch:110-140 | the plots of all characters in order show the text and nothing else |
| `PsplashLayout.OneCharacter` | meta-agl-drm-lease/recipes-core/psplash/files/0008-Extract-draw-font-from-psplash-fb.patch:127-137 | a single character sets the set bits of its rows, top bit leftmost, within its width and 32 columns |
| `PsplashLayout.PenAfter` | meta-agl-drm-lease/recipes-core/psplash/files/0008-Extract-draw-font-from-psplash-fb.patch:110-140 | after each character the pen is further by its width, after a newline at the start of the next line, one font height down |
| `PsplashLayout.TextsCompose` | meta-agl-drm-lease/recipes-core/psplash/files/0008-Extract-draw-font-from-psplash-fb.patch:110-140 | two texts in one show as the first, and the second from where the pen is after it, if a line begins there or the second is a single line |
| `PsplashText.DrawGlyph` | meta-agl-drm-lease/recipes-core/psplash/files/0008-Extract-draw-font-from-psplash-fb.patch:127-137 | the two loops over a bitmap plot exactly its set bits |
| `PsplashLayout.ShiftedTop` | meta-agl-drm-lease/recipes-core/psplash/files/0008-Extract-draw-font-from-psplash-fb.patch:129-136 | testing the top bit of a 32 bit pattern after cx shifts tests bit cx from the left, and nothing beyond 32 |
| `PsplashLayout.InkWithinWidth` | meta-agl-drm-lease/recipes-core/psplash/files/0008-Extract-draw-font-from-psplash-fb.patch:60-141 | every inked column lies in [0, width) for the width text_size returns, over all lines |
| `PsplashLayout.InkBelowHeightIff` | meta-agl-drm-lease/recipes-core/psplash/files/0008-Extract-draw-font-from-psplash-fb.patch:89 | ink lies below the measured height if and only if it is on the last line of a text of several lines |
| `PsplashDrmFlip.Drm.constructor` | meta-agl-drm-lease/recipes-core/psplash/files/0015-psplash-drm.c-Implement-double-buffering.patch:290-318 | the canvas draws into the back buffer and the CRTC scans out the front buffer, if it could be set |
| `PsplashDrmFlip.Drm.FlipBuffers` | meta-agl-drm-lease/recipes-core/psplash/files/0015-psplash-drm.c-Implement-double-buffering.patch:245-277 | canvas.data is never the buffer scanned out; a successful flip shows the buffer drawn into, a synchronising one makes both equal, a failed one changes nothing; the canvas stays fit to draw on |
| `PsplashDrmFlip.Drm.DrawRect` | meta-agl-drm-lease/recipes-core/psplash/files/0015-psplash-drm.c-Implement-double-buffering.patch:301 | drawing on the canvas changes the back buffer only |
| `PsplashDrmFlip.Drm.DrawImage` | meta-agl-drm-lease/recipes-core/psplash/files/0015-psplash-drm.c-Implement-double-buffering.patch:301 | and so does drawing an image |
| `PsplashDrmFlip.Drm.WriteText` | meta-agl-drm-lease/recipes-core/psplash/files/0015-psplash-drm.c-Implement-double-buffering.patch:301 | and a text |
| `PsplashDrmFlip.ScreenIsLastFlippedCanvas` | meta-agl-drm-lease/recipes-core/psplash/files/0015-psplash-drm.c-Implement-double-buffering.patch:245-277 | over any run of draws and flips, some failing, the screen shows the canvas as it was at the last successful flip; if that was the last step and synchronised, both buffers are equal |
| `PsplashDrmFlip.ScreenUnchangedWithoutFlip` | meta-agl-drm-lease/recipes-core/psplash/files/0015-psplash-drm.c-Implement-double-buffering.patch:257-264 | without a successful flip the screen does not change |
| `PsplashDrmFlip.EveryOtherCommandShows` | meta-agl-drm-lease/recipes-core/psplash/files/0015-psplash-drm.c-Implement-double-buffering.patch:266-276 | from equal buffers, commands that repaint part of the canvas and flip without synchronising leave only every other command on the screen |
| `PsplashDrmFlip.SyncedCommandsAllShow` | meta-agl-drm-lease/recipes-core/psplash/files/0015-psplash-drm.c-Implement-double-buffering.patch:272-276 | with synchronising flips all of them are on the screen |
| `PsplashDrmFlip.AllCommandsShowIff` | meta-agl-drm-lease/recipes-core/psplash/files/0015-psplash-drm.c-Implement-double-buffering.patch:272-276 | with a choice for each flip, all commands show, whatever they are, if and only if every flip before the last one synchronises |
| `PsplashDrmFlip.FirstOfTwoIsLost` | meta-agl-drm-lease/recipes-core/psplash/files/0015-psplash-drm.c-Implement-double-buffering.patch:266-276 | of two commands that each leave a mark only the second is on the screen without synchronising |
| `PsplashModeset.FirstFit` | meta-agl-drm-lease/recipes-core/psplash/files/0011-Import-drm-howto-modeset.c-as-psplash-drm.c.patch:363-438 | the CRTC chosen is used by no device and is the bound one or reachable by an encoder of the connector; none is chosen if and only if every such CRTC is used, or negative as an int |
| `PsplashOutcomes.BoundCrtcFirst` | meta-agl-drm-lease/recipes-core/psplash/files/0011-Import-drm-howto-modeset.c-as-psplash-drm.c.patch:363-438 | a connector keeps the CRTC it is bound to unless that is taken; otherwise it gets the first free CRTC of the first encoder that reaches one, both in the kernel's order; none if there is none |
| `PsplashOutcomes.SetUpOutcome` | meta-agl-drm-lease/recipes-core/psplash/files/0015-psplash-drm.c-Implement-double-buffering.patch:95-140 | which connectors are passed over, fail, are ready with which CRTC and buffers, or come to the size mismatch |
| `PsplashOutcomes.CreatedIff` | meta-agl-drm-lease/recipes-core/psplash/files/0015-psplash-drm.c-Implement-double-buffering.patch:146-220 | a frame buffer is created if and only if all four calls succeed with identifiers not in use, and holds what they returned |
| `PsplashOutcomes.DeviceIsAddedInFront` | meta-agl-drm-lease/recipes-core/psplash/files/0011-Import-drm-howto-modeset.c-as-psplash-drm.c.patch:228-260 | each connector that is ready becomes the first device of the list, and nothing else changes it |
| `PsplashModeset.CandidatesAreUsable` | meta-agl-drm-lease/recipes-core/psplash/files/0011-Import-drm-howto-modeset.c-as-psplash-drm.c.patch:397-433 | the CRTCs tried are exactly those the connector can use |
| `PsplashModeset.Card.FindCrtc` | meta-agl-drm-lease/recipes-core/psplash/files/0011-Import-drm-howto-modeset.c-as-psplash-drm.c.patch:363-438 | the nested loops return the first free CRTC in the order tried: the bound one, then encoder by encoder |
| `PsplashModeset.Card.Unused` | meta-agl-drm-lease/recipes-core/psplash/files/0011-Import-drm-howto-modeset.c-as-psplash-drm.c.patch:379-387 | the loop over the device list keeps an identifier, as an int, exactly if no device uses it |
| `PsplashModeset.Card.TryEncoder` | meta-agl-drm-lease/recipes-core/psplash/files/0011-Import-drm-howto-modeset.c-as-psplash-drm.c.patch:409-430 | the loop over the CRTCs finds the first free one the encoder can reach |
| `PsplashModeset.PreparedCrtcsAreDistinct` | meta-agl-drm-lease/recipes-core/psplash/files/0011-Import-drm-howto-modeset.c-as-psplash-drm.c.patch:212-265 | preparing any number of connectors, whatever fails, leaves no two devices on one CRTC |
| `PsplashModeset.Card.CreateFb` | meta-agl-drm-lease/recipes-core/psplash/files/0015-psplash-drm.c-Implement-double-buffering.patch:146-220 | whichever call fails, nothing is live that was not before; on success destroying the buffer restores what was live |
| `PsplashModeset.Card.DestroyFb` | meta-agl-drm-lease/recipes-core/psplash/files/0015-psplash-drm.c-Implement-double-buffering.patch:229-243 | mapping, frame buffer and dumb buffer are released |
| `PsplashModeset.Card.SetUpDev` | meta-agl-drm-lease/recipes-core/psplash/files/0015-psplash-drm.c-Implement-double-buffering.patch:113-140 | a failing set-up leaves live what was live before, except that a size mismatch leaves both buffers |
| `PsplashModeset.Card.Prepare` | meta-agl-drm-lease/recipes-core/psplash/files/0011-Import-drm-howto-modeset.c-as-psplash-drm.c.patch:228-260 | the loop over connectors links exactly the devices set up, newest first |
| `PsplashModeset.PreparedIsAccounted` | meta-agl-drm-lease/recipes-core/psplash/files/0015-psplash-drm.c-Implement-double-buffering.patch:113-140 | over any connectors and failures, what is live is what was live at first plus the buffers of the listed devices plus those of size mismatches, each fresh when it came |
| `PsplashModeset.Card.Destroy` | meta-agl-drm-lease/recipes-core/psplash/files/0015-psplash-drm.c-Implement-double-buffering.patch:332-347 | the destroy loop empties the list and releases the two buffers of each device |
| `PsplashModeset.DestroyUndoesPrepareIff` | meta-agl-drm-lease/recipes-core/psplash/files/0015-psplash-drm.c-Implement-double-buffering.patch:132-137 | destroying what was prepared restores what was live before if and only if no connector came to the size check (connected, with a mode, a usable CRTC no device has, both buffers created) with two sizes that differ; otherwise exactly those buffers stay live |
| `PsplashModeset.MismatchIffSizesDiffer` | meta-agl-drm-lease/recipes-core/psplash/files/0015-psplash-drm.c-Implement-double-buffering.patch:113-137 | setting up a connector leaks if and only if it comes to that check with two sizes that differ |
| `PsplashModeset.SizeMismatchLeaks` | meta-agl-drm-lease/recipes-core/psplash/files/0015-psplash-drm.c-Implement-double-buffering.patch:132-137 | one connector whose buffers come out with 100 and 200 bytes leaves both live after destroying |
| `ConsoleControl.RunKeepsFifo` | meta-egvirt/recipes-extended/vhost-device-console/vhost-device-console-0.1.0/src/vhu_console.rs:287-356 | in every run, with any guest: replies generated = replies taken from rx_fifo followed by those in it, in order, and the buffers written hold those of the taken ones that were not lost |
| `ConsoleControl.RepliesFormFifo` | meta-egvirt/recipes-extended/vhost-device-console/vhost-device-console-0.1.0/src/vhu_console.rs:358-400 | with well-formed receive buffers and no failing write: what was written followed by rx_fifo is all the replies due for the control messages accepted, in order; DueForChains, DueForPasses and DueForRun say which |
| `ConsoleReplies.RepliesAre` | meta-egvirt/recipes-extended/vhost-device-console/vhost-device-console-0.1.0/src/vhu_console.rs:358-400 | message by message: an accepted event 0 sets ready and is answered by event 1, event 3 by events 4, 7 and 6 in this order, each with id 0 and value 1; any other changes nothing but that it is returned |
| `ConsoleReplies.DueForChains` | meta-egvirt/recipes-extended/vhost-device-console/vhost-device-console-0.1.0/src/vhu_console.rs:402-466 | the replies due for a batch are those to each message in turn, up to the first that is not a readable descriptor of eight bytes |
| `ConsoleReplies.DueForPasses` | meta-egvirt/recipes-extended/vhost-device-console/vhost-device-console-0.1.0/src/vhu_console.rs:536-552 | of the passes made, those after one that is not accepted in full, or not notified, or not read do not count |
| `ConsoleReplies.DueForRun` | meta-egvirt/recipes-extended/vhost-device-console/vhost-device-console-0.1.0/src/vhu_console.rs:672-758 | only transmit events make replies due, in order |
| `ConsoleReplies.AcceptedIff` | meta-egvirt/recipes-extended/vhost-device-console/vhost-device-console-0.1.0/src/vhu_console.rs:402-445 | a control message is accepted if and only if it is a readable descriptor of eight bytes |
| `ConsoleReplies.Handshake` | meta-egvirt/recipes-extended/vhost-device-console/vhost-device-console-0.1.0/src/vhu_console.rs:358-400 | a run: DEVICE_READY and PORT_READY, with one buffer posted for each reply, leave PORT_ADD, CONSOLE_PORT, PORT_NAME and PORT_OPEN in the four buffers, each with a notification |
| `ConsoleReplies.ReplyIsDelivered` | meta-egvirt/recipes-extended/vhost-device-console/vhost-device-console-0.1.0/src/vhu_console.rs:379-390 | with a buffer posted and nothing queued a reply is written and notified at once |
| `ConsoleReplies.ReplyLayout` | meta-egvirt/recipes-extended/vhost-device-console/vhost-device-console-0.1.0/src/vhu_console.rs:129-138 | the eight bytes of a reply: id, event and value, low byte first |
| `ConsoleReplies.NameLayout` | meta-egvirt/recipes-extended/vhost-device-console/vhost-device-console-0.1.0/src/vhu_console.rs:339-342 | behind those of PORT_NAME comes the name, byte by byte |
| `ConsoleReplies.FirstBuffer` | meta-egvirt/recipes-extended/vhost-device-console/vhost-device-console-0.1.0/src/vhu_console.rs:302-352 | an empty chain ends a walk before a reply is taken, a bad buffer after; a good one, writable and of eight bytes or more, gets the reply in front |
| `ConsoleReplies.WalkOutcome` | meta-egvirt/recipes-extended/vhost-device-console/vhost-device-console-0.1.0/src/vhu_console.rs:516-533 | a walk notifies the guest once if all buffers were served, and succeeds then and when replies ran out; a queue that cannot be read or notified is an error |
| `ConsoleReplies.RxEvents` | meta-egvirt/recipes-extended/vhost-device-console/vhost-device-console-0.1.0/src/vhu_console.rs:672-758 | the receive event does nothing before DEVICE_READY, and then the same as the backend's own; passes end at the first error |
| `ConsoleReplies.TxEvents` | meta-egvirt/recipes-extended/vhost-device-console/vhost-device-console-0.1.0/src/vhu_console.rs:672-758 | a transmit event makes pass after pass, with one notification each, until one is not accepted in full or cannot be notified |
| `ConsoleControl.NothingMissingIff` | meta-egvirt/recipes-extended/vhost-device-console/vhost-device-console-0.1.0/src/vhu_console.rs:311-330 | written and queued replies are all that were generated if and only if none was lost to a refused buffer |
| `ConsoleControl.ServeLosesIff` | meta-egvirt/recipes-extended/vhost-device-console/vhost-device-console-0.1.0/src/vhu_console.rs:305-330 | a walk loses a message if and only if a reply is queued when it reaches its first bad buffer and that one has a descriptor |
| `ConsoleControl.BadBufferLosesReplies` | meta-egvirt/recipes-extended/vhost-device-console/vhost-device-console-0.1.0/src/vhu_console.rs:377-390 | a guest whose first buffer is not writable loses the first reply to PORT_READY and never gets the other two, though its request is returned |
| `ConsoleControl.AnswersQueuePrefix` | meta-egvirt/recipes-extended/vhost-device-console/vhost-device-console-0.1.0/src/vhu_console.rs:377-390 | replies to one message are queued in order, all of them unless a walk fails, and then a prefix |
| `ConsoleControl.ServeGoodBuffers` | meta-egvirt/recipes-extended/vhost-device-console/vhost-device-console-0.1.0/src/vhu_console.rs:287-356 | over good buffers the i-th buffer gets the i-th queued reply; buffers beyond the last reply are kept and the guest is then not notified |
| `ConsoleControl.ServeAccountsForBuffers` | meta-egvirt/recipes-extended/vhost-device-console/vhost-device-console-0.1.0/src/vhu_console.rs:300-355 | whatever the guest posts, a walk returns a prefix of the buffers it took, once each and in order, and keeps the rest; it keeps none if and only if it serves all |
| `ConsoleControl.BatchReturnsAcceptedPrefix` | meta-egvirt/recipes-extended/vhost-device-console/vhost-device-console-0.1.0/src/vhu_console.rs:402-466 | control messages are returned once each and in order up to the first refused one, whatever becomes of the replies |
| `ConsoleControl.MessageRoundTrip` | meta-egvirt/recipes-extended/vhost-device-console/vhost-device-console-0.1.0/src/vhu_console.rs:129-138 | the first eight bytes written for any message read back as that message |
| `ConsoleControl.Backend.ProcessCtrlRxRequests` | meta-egvirt/recipes-extended/vhost-device-console/vhost-device-console-0.1.0/src/vhu_console.rs:287-356 | the loop refines Serve: a message is taken before its buffer is checked |
| `ConsoleControl.Backend.ServeChain` | meta-egvirt/recipes-extended/vhost-device-console/vhost-device-console-0.1.0/src/vhu_console.rs:302-352 | one buffer: the order in which it is checked, a reply taken, and written |
| `ConsoleControl.Backend.ProcessCtrlRxQueue` | meta-egvirt/recipes-extended/vhost-device-console/vhost-device-console-0.1.0/src/vhu_console.rs:516-533 | a walk notifies the guest only if all buffers were served |
| `ConsoleControl.Backend.HandleControlMsg` | meta-egvirt/recipes-extended/vhost-device-console/vhost-device-console-0.1.0/src/vhu_console.rs:358-400 | each reply is queued and followed by a walk of the receive queue, up to the first error; which replies, and in what order, is RepliesAre |
| `ConsoleControl.Backend.SendReply` | meta-egvirt/recipes-extended/vhost-device-console/vhost-device-console-0.1.0/src/vhu_console.rs:379-381 | one reply queued, with identifier 0 and value 1, and one walk |
| `ConsoleControl.Backend.ProcessCtrlTxRequests` | meta-egvirt/recipes-extended/vhost-device-console/vhost-device-console-0.1.0/src/vhu_console.rs:402-466 | the loop over control messages ignores errors of the replies and succeeds if and only if every chain is accepted |
| `ConsoleControl.Backend.ProcessCtrlTxQueue` | meta-egvirt/recipes-extended/vhost-device-console/vhost-device-console-0.1.0/src/vhu_console.rs:536-552 | a pass over the control messages notifies the guest only if all were accepted, and fails if it cannot |
| `ConsoleControl.Backend.HandleEvent` | meta-egvirt/recipes-extended/vhost-device-console/vhost-device-console-0.1.0/src/vhu_console.rs:672-758 | each control event is one step of the run, with as many passes over its queue as it takes and an end at the first error, which is returned; the receive queue event does nothing before DEVICE_READY |
| `CanBackend.BatchReturnsPrefix` | meta-egvirt/recipes-extended/vhost-device-can/vhost-device-can-0.1.0/src/vhu_can.rs:191-403 | a batch returns, in order and once each, the chains before the first that is refused, with the length and status of each; that one and the rest are taken but not returned; frames handed to the controller are counted exactly |
| `CanBackend.BatchDoneIff` | meta-egvirt/recipes-extended/vhost-device-can/vhost-device-can-0.1.0/src/vhu_can.rs:268 | a batch succeeds if and only if every chain in it is returned |
| `CanVerdicts.TxReturnedIff` | meta-egvirt/recipes-extended/vhost-device-can/vhost-device-can-0.1.0/src/vhu_can.rs:283-399 | a transmit chain is returned if and only if it has two descriptors, the first readable with 80 bytes, type 1, a standard identifier and negotiated flags, the second writable; its status is 0 if the socket took the frame and 1 if not |
| `CanVerdicts.TxHandedIff` | meta-egvirt/recipes-extended/vhost-device-can/vhost-device-can-0.1.0/src/vhu_can.rs:283-399 | its frame reaches the socket exactly then, whether or not the response can be written |
| `CanVerdicts.FlagsRefusedIff` | meta-egvirt/recipes-extended/vhost-device-can/vhost-device-can-0.1.0/src/vhu_can.rs:338-366 | which frames are refused for RTR, FD or classic, in terms of the flag bits and the negotiated features, RTR first |
| `CanVerdicts.TxRefusedFirst` | meta-egvirt/recipes-extended/vhost-device-can/vhost-device-can-0.1.0/src/vhu_can.rs:283-325 | a transmit chain is refused for its number of descriptors, a write-only first one, or a short one, the first of these that holds |
| `CanVerdicts.TxRefusedNext` | meta-egvirt/recipes-extended/vhost-device-can/vhost-device-can-0.1.0/src/vhu_can.rs:325-375 | and then for its type, its flags, or a second descriptor that is not for writing, the first that holds |
| `CanVerdicts.CtrlReturnedIff` | meta-egvirt/recipes-extended/vhost-device-can/vhost-device-can-0.1.0/src/vhu_can.rs:202-266 | a control chain is returned, always with status 0, if and only if it asks for start (0x201) or stop (0x202) in two readable bytes and has a writable descriptor for the response |
| `CanVerdicts.CtrlRefusedIff` | meta-egvirt/recipes-extended/vhost-device-can/vhost-device-can-0.1.0/src/vhu_can.rs:202-266 | why a control chain is refused, the first reason that holds |
| `CanVerdicts.PassOutcome` | meta-egvirt/recipes-extended/vhost-device-can/vhost-device-can-0.1.0/src/vhu_can.rs:536-557 | a pass notifies the guest once if and only if it succeeds: queue readable, all chains returned, notification sent; chains stay on a queue that cannot be read |
| `CanVerdicts.LoopOutcome` | meta-egvirt/recipes-extended/vhost-device-can/vhost-device-can-0.1.0/src/vhu_can.rs:695-713 | the EVENT_IDX loop ends with notifications on exactly if it ends without error, and goes on exactly while a pass succeeds and something is available |
| `CanBackend.CtrlPanicsIff` | meta-egvirt/recipes-extended/vhost-device-can/vhost-device-can-0.1.0/src/vhu_can.rs:205-249 | the control queue panics on exactly the understood requests in a chain of a single descriptor |
| `CanBackend.TxPanicsIff` | meta-egvirt/recipes-extended/vhost-device-can/vhost-device-can-0.1.0/src/can.rs:243-251 | the transmit queue panics on exactly the well-formed and negotiated frames with a response descriptor whose identifier is above 0x7FF or that are extended remote requests |
| `CanBackend.ExtendedFramePanics` | meta-egvirt/recipes-extended/vhost-device-can/vhost-device-can-0.1.0/src/can.rs:247 | an extended frame with identifier 0x800 is one |
| `CanBackend.LoopKeepsLedger` | meta-egvirt/recipes-extended/vhost-device-can/vhost-device-can-0.1.0/src/vhu_can.rs:695-713 | within an event, however often the EVENT_IDX loop goes round and however it ends, heads returned, lost, available and to come are those the guest made available, in order; it ends without error only with all returned and nothing available when notifications came on |
| `CanBackend.RunKeepsTally` | meta-egvirt/recipes-extended/vhost-device-can/vhost-device-can-0.1.0/src/vhu_can.rs:672-725 | over any number of events, failing or not, with or without EVENT_IDX, every head is returned, lost, available or to come as often as the guest made it available |
| `CanBackend.UsedInOrder` | meta-egvirt/recipes-extended/vhost-device-can/vhost-device-can-0.1.0/src/vhu_can.rs:672-725 | over any number of events, failing or not, the used heads are those made available, in that order, with some left out |
| `CanBackend.Backend.TxRequest` | meta-egvirt/recipes-extended/vhost-device-can/vhost-device-can-0.1.0/src/vhu_can.rs:283-399 | one transmit chain: the outcome of its checks in order, the panic of the controller included, and whether the frame reached the socket |
| `CanBackend.Backend.CtrlRequest` | meta-egvirt/recipes-extended/vhost-device-can/vhost-device-can-0.1.0/src/vhu_can.rs:202-266 | one control chain: the outcome of its checks in order |
| `CanBackend.Backend.CheckFrame` | meta-egvirt/recipes-extended/vhost-device-can/vhost-device-can-0.1.0/src/vhu_can.rs:338-366 | the negotiation checks, made on masked flags, refuse only extended frames for their RTR or FD flag; the flags go into the identifier of a remote request |
| `CanBackend.Backend.ProcessRequests` | meta-egvirt/recipes-extended/vhost-device-can/vhost-device-can-0.1.0/src/vhu_can.rs:271-403 | the loop over a batch refines Batch |
| `CanBackend.Backend.ProcessQueue` | meta-egvirt/recipes-extended/vhost-device-can/vhost-device-can-0.1.0/src/vhu_can.rs:536-557 | all chains available leave the ring; the guest is notified if and only if the batch succeeds; a queue that cannot be read and a notification that cannot be sent are errors |
| `CanBackend.Backend.HandleEvent` | meta-egvirt/recipes-extended/vhost-device-can/vhost-device-can-0.1.0/src/vhu_can.rs:672-725 | with EVENT_IDX the loop runs until nothing is available or a pass fails, without it once |

## Left out

- VirtioCanRx.BuffersAreConserved: is about receive buffers; those of the event indication queue are filled and put back by the same code.
- VirtioCanRx.BusoffOncePerStart: the controller is assumed to answer the start and stop messages; the control queue is not modelled.
- VirtioCanRx.IndicationReachesPoll: that a scheduled poll is run is up to the kernel; when one is scheduled is stated by ParkedIff.
- VirtioCanRx.RxPriv.ReadQueue: a receive ring that refuses a buffer although it has room is not modelled; the buffer would be lost, as the source ignores the result.
- VirtioCanTx.FlowControlSuffices: a ring that falls back from an indirect table to direct descriptors, or fails to allocate one, shows as a failing add.
- VirtioCanTx.SlotOwnership: one transmission at a time, as the network stack serialises them; a suspend or a close is assumed to find none half way.
- VirtioCanTx.CompletionEchoesOwnFrame: that close_candev and the restart of the CAN core empty all echo slots is taken as their contract; neither is part of this model.
- NapiWakeup.NoWakeupIsLost: callbacks are the flag of a ring without EVENT_IDX; a poll with quota zero is not modelled.
- VirtioCanCodec.RoundTrip: is about `virtio_can.c` alone; the frame layout of the Rust device differs from `virtio_can.h`.
- PsplashDrawing.Canvas.PlotPixel: little-endian hosts; C `int` arithmetic is taken not to overflow.
- PsplashDrmFlip.Drm.DrawRect: drawing needs a canvas that fits its raster. Plain DRM does not exchange the sides of a canvas turned sideways, so it may not fit, exactly as `UnswappedFitsIff` says, and then pixels lie outside the buffers.
- PsplashDrawing.Canvas.DrawImage: needs the bytes of every pixel to be there, also for pixels that are not drawn; images of fewer than three bytes per pixel have no encoder side.
- PsplashText.FontGlyph: needs the glyph to be in the font; for one that is not, the outer loop repeats the search without end.
- PsplashModeset.Card.Prepare: is the loop over all connectors with each new device in front; later patches append it instead and stop after the first connector, which shortens the list of connectors.
- PsplashModeset.Card.FindCrtc: at most 32 CRTCs, as the kernel has them; beyond that the shift in the source is undefined.
- ConsoleControl.Backend.HandleEvent: how many passes the EVENT_IDX loop makes is given with the event; that it goes on while something is available is shown for the CAN device only. Returning a used chain succeeds, as it does for a head taken from the ring. The data queues are not part of it.
- CanBackend.LoopKeepsLedger: the guest makes available finitely many batches while the loop runs; with one more batch each time the loop does not end.
- CanBackend.Backend.TxRequest: after a panic the lock on the controller is poisoned; what later events do then is not modelled.
- CanBackend.Backend.ProcessRequests: returning a used chain succeeds, as it does for a head taken from the ring; the source only warns when it does not.
- Frames that virtio_can_start_xmit drops before it looks for a slot: invalid ones, error frames, and those it has no memory for.
- Statistics in bytes, carrier state, logging and kicks of the virtqueue.
- psplash set-up on a frame buffer device: mapping, vsync and its own two buffers.
- The DRM lease and the saved CRTC that is restored at the end.
- Console data queues, the terminal thread and configuration space.
- Translation of CAN flags and identifiers in the Rust device, and its receive queue, which takes all chains and uses the first.
- Flutter, Weston, kmscube and dlt-daemon patches, recipes and service files.
