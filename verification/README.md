# Verification of the Greaseweazle test board firmware

This project models the firmware of a test jig for USB floppy controllers, written in
C for an STM32F1, and proves what it does. The firmware drives a USB host stack, sends
test commands to the device it hosts, and walks the pins of the board between them.

| file | part of the firmware |
|---|---|
| `Clock.dfy`, `TimerQueue.dfy`, `TimerList.dfy`, `TimerSystem.dfy`, `TimerHistory.dfy` | the 32-bit clock built on a 24-bit counter, the queue of timers that share one hardware timer, both together, and what has been asked of them |
| `Channel.dfy` | the interrupt handlers of one USB host channel |
| `Cdc.dfy`, `BulkOut.dfy`, `BulkIn.dfy` | the CDC data machine, bulk OUT from the caller to the device, and bulk IN over its channel |
| `Hcs.dfy`, `Control.dfy`, `ControlBus.dfy`, `HostCore.dfy`, `RequestEnds.dfy`, `HostProgress.dfy`, `Enumeration.dfy`, `HostBus.dfy`, `UsbHost.dfy` | channel allocation, control transfers, these over their two channels, enumeration and the host core, how its requests end, that it gets to the class, what it asks, and all of it together |
| `Descriptors.dfy` | the parser of configuration descriptors |
| `Pins.dfy`, `Commands.dfy`, `Sequencer.dfy`, `Script.dfy`, `WalkRuns.dfy`, `Decides.dfy`, `CommandRule.dfy`, `MainLoop.dfy` | the test sequencer, the bytes of its commands, what its states do, the walking-zero test, runs that pass it, that it decides, and the rule of the command protocol |
| `Sort.dfy`, `Memory.dfy` | quicksort, `memcpy` and `memmove` |
| `CrcShift.dfy`, `CrcTable.dfy`, `Crc.dfy` | the table-driven CRC16-CCITT |
| `Printf.dfy`, `Conversions.dfy`, `Strtol.dfy` | `vsnprintf`, what its conversions print, and `strtol` |
| `Words.dfy`, `Options.dfy`, `UsbStatus.dfy`, `Division.dfy` | shared types and arithmetic |

Code that changes state is modelled by classes and by methods over arrays. Each such
method is proved to compute a function, or to meet a specification, and the theorems
about runs are stated over those functions: the hardware, the bus, the device and the
wiring are inputs, and the claims hold for every sequence of them. The classes of
`UsbHost.dfy` and `MainLoop.dfy` are the programs of `HostCore.dfy` and `Sequencer.dfy`
in place: only their top-level methods have rows below.

Results that a reader of the code might not expect:

- A device-to-host control request of length zero sends its status stage in the wrong
  direction. Enumeration makes one exactly when a configuration claims a total length
  of zero (`Control.CompleteMeansStandardIff`, `HostCore.RequestsAreTransfers`), and
  this does happen (`HostCore.NonStandardRequestHappens`).
- Enumeration does not look at why a request has failed: it makes the same request again,
  also one that the device stalls, for as long as the device is there
  (`RequestEnds.FailedRequestRepeats`).
- The control error counter is never reset, yet no request restarts more than three
  times (`Control.WaitRestarts`).
- The transmit machine waits for ever exactly after a halt that a stall, a transaction
  error or a data-toggle error asked for (`BulkOut.StuckIff`, `BulkOut.HaltSticksIff`).
  Each of the three is reached with any message (`BulkOut.StuckIsReached`); the last is
  not even reported to it.
- A control machine that times out on an IN stage whose channel it has not halted can
  count a later stage as done of which nothing was transferred, and only such a machine
  can (`ControlBus.TimeoutIsStaleIff`, `ControlBus.EveryStageOwn`,
  `ControlBus.StaleStageHappens`): the channel reports a request done that was submitted
  while a completed transfer waited for its halt (`Channel.StaleDoneEverIff`).
- The control machine waits for ever, until the device is unplugged, after a SETUP that is
  stalled or not ready, a status stage OUT that is stalled, and any OUT stage with a
  data-toggle error, and after nothing else (`ControlBus.WaitsForEverIff`,
  `ControlBus.HaltWaitsIff`, `ControlBus.WaitsForEverIsReached`).
- The command protocol forbids a new command before all expected bytes of the previous
  answer are received. The program takes the first packet that is not empty for the whole
  answer, so it keeps the rule exactly as long as answers come in one packet
  (`CommandRule.RuleKeptIff`), and never with an IN endpoint of fewer than 34 bytes
  (`CommandRule.ShortPacketsBreakRule`, `CommandRule.ShortAnswerHappens`).
- For the same reason an answer of fewer than 5 bytes to a pin command is checked on what
  an earlier answer has left in the buffer, and crosstalk can go unseen
  (`Sequencer.AnswerDecidesIff`, `WalkRuns.CrosstalkPasses`); with the 5 bytes the
  walking-zero test is complete (`Sequencer.WalkingZeroComplete`) and decides every board
  (`Decides.TestDecides`).
- The receive machine waits for ever after any halt but that of a completion, and even then
  if a NAK comes between the completion and the halt: the packet is there and is never
  reported (`BulkIn.StuckIff`, `BulkIn.HaltSticksIff`, `BulkIn.LostPacketHappens`,
  `Channel.CompletionReportedIff`). Only the timeout of the main loop ends it, with error 20.
- The descriptor parser drops the endpoints of an interface from the first one on that
  has a smaller packet size than its predecessor, never records an interface without
  endpoints, and after a failed call may hold the next configuration against an endpoint
  of the failed one (`Descriptors.RecoversIff`, `Descriptors.FailedCallLeaves`). Behind a
  last descriptor of more than 9 bytes it looks at one more type byte, and takes what lies
  there for an interface if that byte says so (`Descriptors.ReadsOnIff`,
  `Descriptors.DeviceProp.ParseCfgDesc`).
- `strtol` reads a hexadecimal prefix with base 16 only, not with the base 0 for which its
  comment promises it (`Strtol.HexPrefixReadIff`); the code is followed. Space padding
  after the prefixes of `%#x` and `%#o` makes text that does not read back
  (`Strtol.UnsignedReadsBackIff`).

## Model

| member | source | states |
|---|---|---|
| Clock.TimeDiffExact | inc/time.h:23-26 | `time_diff` of two wrapped times is the true distance, sign included, whenever the true times are less than 2^31 ticks apart |
| Clock.TimeDiffInverse | inc/time.h:23-25 | adding `time_diff(x, y)` to `x` gives `y` back, modulo 2^32 |
| Clock.TimeNowLag | src/time.c:29-37 | what `time_now` returns for any stamp age: the stamped time plus the ticks elapsed modulo one turn of the 24-bit counter |
| Clock.TimeNowCorrectIff | src/time.c:29-37 | `time_now` counts every elapsed tick if and only if the counter has made a multiple of 256 turns since the stamp, hence whenever the stamp is younger than 2^24 ticks |
| TimerQueue.PositionSplits | src/timer.c:88-90 | the search for a place passes every earlier deadline and stops at the first that is not earlier |
| TimerQueue.RemoveMembers | src/timer.c:59-71 | cancelling takes out the entries of that timer and no other |
| TimerQueue.RemoveAt | src/timer.c:66-70 | on a queue without repeats, cancelling unlinks exactly one position |
| TimerQueue.RemovePreserves | src/timer.c:59-71 | cancelling keeps the queue free of repeats and in wrap-around order |
| TimerQueue.InsertMembers | src/timer.c:91-92 | setting adds one entry and loses none |
| TimerQueue.InsertPreserves | src/timer.c:86-92 | setting keeps the queue free of repeats and in wrap-around order |
| TimerQueue.IntervalBounds | src/timer.c:28-45 | for every int32 distance both registers fit 16 bits; beyond the slack the overflow comes before the deadline, and a coarse one leaves at least 44,100 ticks |
| TimerQueue.ChainReachesDeadline | src/timer.c:116-132 | a deadline by itself: however late each interrupt is served, at most 38 re-armings bring it within the slack |
| TimerList.TimerUnit.TimeNow | src/time.c:29-37 | the two reads and the correction compute `TimeNowFrom` |
| TimerList.TimerUnit.Reprogram | src/timer.c:28-45 | the registers written are `Prescaler` and `Reload`, both within 16 bits, and the timer runs |
| TimerList.TimerUnit.FindPrevious | src/timer.c:66-67 | the unbounded search of `_timer_cancel` ends, at the link that leads to the timer |
| TimerList.TimerUnit.Detach | src/timer.c:69-70 | unlinking in place keeps the list valid and drops one position |
| TimerList.TimerUnit.Unlink | src/timer.c:59-71 | `_timer_cancel`: the list stays valid (acyclic, exactly the active timers, once each) and becomes `Remove` of what it was |
| TimerList.TimerUnit.Cancel | src/timer.c:100-106 | `timer_cancel` does the same |
| TimerList.TimerUnit.FindPlace | src/timer.c:88-90 | the walk over the list stops at `Position` |
| TimerList.TimerUnit.Link | src/timer.c:91-92 | linking in place puts one timer in and keeps the list valid |
| TimerList.TimerUnit.LinkEntry | src/timer.c:91-92 | seen from the queue: one entry more, and no deadline touched |
| TimerList.TimerUnit.Place | src/timer.c:86-95 | the queue becomes `Insert` of what it was, and the hardware is set again exactly when the timer is the new head |
| TimerList.TimerUnit.Set | src/timer.c:73-98 | `timer_set`, also of a queued timer: cancel, insert by wrap-around order, and program the hardware for a new head only |
| TimerList.TimerUnit.Expire | src/timer.c:123-130 | one turn of the interrupt loop pops the head when it is due within the slack, and otherwise re-arms for it |
| TimerList.TimerUnit.StampUpdate | src/time.c:22-27 | the stamp becomes the complement of the time read, and its timer is queued 500 ms later |
| TimerList.TimerUnit.constructor | src/time.c:39-45 | `time_init` stamps the counter and queues the stamp timer alone |
| TimerSystem.ReadExact | src/time.c:29-37 | a clock read from a right stamp less than 2^24 ticks old is the true time plus a constant |
| TimerSystem.DeltasExact | src/timer.c:124 | in every state satisfying the invariant, wrapped distances to queued deadlines are the true ones |
| TimerSystem.InitialInv | src/time.c:39-45 | `time_init` establishes the joint invariant |
| TimerSystem.SetQueue | src/timer.c:73-92 | setting a timer keeps the queue in order of true deadlines |
| TimerSystem.SetFiring | src/timer.c:94-95 | setting never arms the hardware so late that some queued timer misses its limit |
| TimerSystem.CancelInv | src/timer.c:100-106 | cancelling keeps the joint invariant, although the hardware stays armed |
| TimerSystem.ExpireInv | src/timer.c:128-130 | popping the head keeps the joint invariant |
| TimerSystem.StampUpdateInv | src/time.c:22-25 | renewing the stamp keeps the joint invariant |
| TimerSystem.LeaveFiring | src/timer.c:124-126 | leaving the interrupt re-arms in time for every queued timer |
| TimerSystem.StepInv | src/timer.c:73-132 | every step of ticks, sets, cancels, interrupts, callbacks and interrupted clock reads keeps the joint clock and queue invariant |
| TimerSystem.RunInv | src/timer.c:73-132 | so does every run |
| TimerSystem.ClockAlwaysRight | src/time.c:22-45 | after every run from `time_init`, with an interrupt latency L and a gap G between the two reads such that 4,500,000 + L + G stays below 2^24, and calls of `timer_set` by the program at least two ticks apart, the stamp is younger than 2^24 ticks and `time_now` is the true time plus a constant modulo 2^32, also when the stamp is renewed between its two reads |
| TimerSystem.TimersAlwaysServed | src/timer.c:116-132 | after every such run, under the same assumptions, each queued timer is served by its deadline plus the latency (two ticks more for one set too late), the popped timer has the least deadline, and it is at most 12 ticks early |
| TimerSystem.TimeGoesOn | src/timer.c:116-132 | and time is never blocked: from every state that the invariant allows, hence after every run, the pending interrupts and callbacks can be finished and the clock tick once more within the latency and the gap |
| TimerSystem.QuietLoad | src/timer.c:116-132 | a step that leaves the queue alone never raises, and an interrupt always lowers, the number of interrupts that can still come |
| TimerSystem.InterruptsBounded | src/timer.c:116-132 | in every stretch of every run in which the queue does not change there are at most four timer interrupts, the stamp timer being always near |
| TimerSystem.HeadNeedsItsChain | src/timer.c:94-95 | from the setting of a new head to the next change of the queue, at the latest its expiry, the machine takes at most as many interrupts as the chain of its distance, and never more than two, since the stamp timer is queued behind it |
| TimerHistory.QueuedIffWanted | src/timer.c:59-132 | in every run a timer is queued if and only if it has been set since it was last cancelled or handed out, and that with the deadline last given; an interrupt hands out nothing else |
| TimerHistory.CancelledStaysOut | src/timer.c:100-106 | a cancelled timer is out of the queue and stays out, however the run goes on, until it is set again |
| Channel.OutOutcomes | src/usb/stm32_usbh/usb_hcd_int.c:389-515 | with the interrupts that are enabled, the OUT handler either asks for a halt, or reports an outcome on a halt, or does nothing |
| Channel.HostChannel.HandleOut | src/usb/stm32_usbh/usb_hcd_int.c:389-515 | the OUT handler in place, branch by branch |
| Channel.HostChannel.HandleInFirst | src/usb/stm32_usbh/usb_hcd_int.c:539-567 | the first decision of the IN handler, and the NAK it hides |
| Channel.HostChannel.HandleInSecond | src/usb/stm32_usbh/usb_hcd_int.c:569-662 | the second decision of the IN handler |
| Channel.HostChannel.HandleIn | src/usb/stm32_usbh/usb_hcd_int.c:524-667 | the IN handler in place |
| Channel.StepInv | src/usb/stm32_usbh/usb_hcd_int.c:389-667 | every interrupt and every allowed resubmission keeps the channel invariant |
| Channel.RunInv | src/usb/stm32_usbh/usb_hcd_int.c:389-667 | so does every run |
| Channel.DoneMeansComplete | src/usb/stm32_usbh/usb_hcd_int.c:475-491 | in every run `URB_DONE` is published only if a transfer-complete was handled since the previous channel-halted, and channel-halted is unmasked exactly while a requested halt is outstanding |
| Channel.StaleDoneIff | src/usb/stm32_usbh/usb_hcd_int.c:604-612 | a resubmission halted at once is reported done exactly when a completed transfer still waited for its halt |
| Channel.StaleDoneEverIff | src/usb/stm32_usbh/usb_hcd_int.c:389-667 | whenever the halt comes: some interrupts in which nothing completes report a resubmission done, if and only if a completed transfer still waited for its halt when it was made |
| Channel.CompletionReportedIff | src/usb/stm32_usbh/usb_hcd_int.c:389-667 | over every sequence of interrupts up to its halt: a completed transfer is reported done if and only if nothing overrides its status in between, on an IN channel not even a NAK |
| Channel.OutcomeIsLastWord | src/usb/stm32_usbh/usb_hcd_int.c:389-667 | in every run a halt, and nothing else, publishes an outcome: that of the last event of the transfer, done, stalled, error or not ready by its kind and direction; and the toggles turn exactly with completed transfers |
| Channel.EveryWordHappens | src/usb/stm32_usbh/usb_hcd_int.c:389-667 | each of these events is enabled on a freshly opened channel and leads to its outcome; only NAK and NYET on an IN channel lead to no halt |
| Cdc.OnePacketIff | src/usb/stm32_usbh/usb_core.c:963-979 | a submission is a single packet if and only if it is no longer than the maximum packet size |
| Cdc.PacketsCover | src/usb/stm32_usbh/usb_core.c:963-979 | up to 256 packets of the maximum size hold the data, the last one some of it; more data is cut off there |
| Cdc.CdcHandle.Transmit | src/usb/stm32_usbh/usbh_cdc.c:205-220 | a transmission starts with the whole message if the class is idle or transferring data, and is refused otherwise |
| Cdc.CdcHandle.Receive | src/usb/stm32_usbh/usbh_cdc.c:228-243 | a reception of the given length starts under the same condition |
| Cdc.CdcHandle.ProcessTransmission | src/usb/stm32_usbh/usbh_cdc.c:250-318 | the transmit machine in place: chunking by endpoint size, retry on not-ready, callback after the last chunk |
| Cdc.CdcHandle.ProcessReception | src/usb/stm32_usbh/usbh_cdc.c:325-371 | the receive machine in place, on every outcome and count; what an empty packet and any other does to it is stated by the rows of `BulkIn` |
| BulkIn.StepInv | src/usb/stm32_usbh/usbh_cdc.c:325-371 | every reception, poll and interrupt keeps the receive machine and its channel in step |
| BulkIn.CallbackHasPacket | src/usb/stm32_usbh/usbh_cdc.c:340-362 | in every run a callback comes only from a poll that finds at least one byte, for a packet that was transferred after it was asked for, once for each reception at most |
| BulkIn.EmptyAsksAgain | src/usb/stm32_usbh/usbh_cdc.c:355-358 | after an empty packet, in every run, two polls have the channel asked for another packet, without a callback or a new reception |
| BulkIn.PacketEnds | src/usb/stm32_usbh/usbh_cdc.c:359-362 | a packet with bytes calls back and ends the reception at once |
| BulkIn.StuckIff | src/usb/stm32_usbh/usbh_cdc.c:340-371 | no event can move the receive machine any more if and only if its packet was halted without being reported done |
| BulkIn.StuckForEver | src/usb/stm32_usbh/usbh_cdc.c:340-371 | then every run leaves it as it is |
| BulkIn.HaltSticksIff | src/usb/stm32_usbh/usb_hcd_int.c:593-640 | the halt of a packet does that if and only if it was not asked for by a completion, or the completion has been overridden |
| BulkIn.LostPacketHappens | src/usb/stm32_usbh/usb_hcd_int.c:593-662 | a NAK between the completion and the halt of a packet that was transferred makes it wait for ever, from every freshly opened pipe |
| BulkOut.DeliverInv | src/usb/stm32_usbh/usbh_ioreq.c:184-205 | a delivery, first or repeated, keeps data and toggles in step |
| BulkOut.HandleInv | src/usb/stm32_usbh/usb_hcd_int.c:475-491 | an interrupt, with any bits, keeps them in step |
| BulkOut.StepInv | src/usb/stm32_usbh/usbh_cdc.c:250-318 | every event on the link keeps the end-to-end invariant |
| BulkOut.RunInv | src/usb/stm32_usbh/usbh_cdc.c:250-318 | so does every run |
| BulkOut.ExactlyOnce | src/usb/stm32_usbh/usbh_cdc.c:250-318 | for any messages and any losses, repeats and refusals, the device has accepted exactly a prefix of the bytes given, in order, all of them when idle, with the toggles of section 8.6 of USB 2.0 in step and every submission one packet |
| BulkOut.CallbackAfterLastAck | src/usb/stm32_usbh/usbh_cdc.c:298-302 | the transmit callback comes once a message, when the device has accepted everything |
| BulkOut.StuckIff | src/usb/stm32_usbh/usbh_cdc.c:282-313 | no event can move the link any more if and only if it waits for a packet that was halted without being reported done or not ready |
| BulkOut.StuckForEver | src/usb/stm32_usbh/usbh_cdc.c:276-313 | then every run leaves it as it is |
| BulkOut.HaltSticksIff | src/usb/stm32_usbh/usb_hcd_int.c:475-512 | the halt of a packet gets the link stuck if and only if it was not asked for by a completion, a NAK or a NYET |
| BulkOut.StuckIsReached | src/usb/stm32_usbh/usb_hcd_int.c:440-512 | from every initial state and with every message this happens by a stall, by a transaction error, and by a data-toggle error, of which nothing is reported |
| BulkOut.DoneIsProgress | src/usb/stm32_usbh/usbh_cdc.c:282-303 | only a packet reported done makes progress, by exactly one packet |
| Hcs.AllocTakesFree | src/usb/stm32_usbh/usbh_hcs.c:115-179 | allocation takes a free channel and leaves the others; freeing gives back that one |
| Hcs.AllocFails | src/usb/stm32_usbh/usbh_hcs.c:115-126 | without a free channel the number is 0xff and nothing is taken |
| Hcs.FreeAllLeavesControl | src/usb/stm32_usbh/usbh_hcs.c:150-159 | freeing all leaves only the control channels used, as they were |
| Hcs.OtgCore.GetFreeChannel | src/usb/stm32_usbh/usbh_hcs.c:167-179 | the linear search finds the first free channel or reports none |
| Hcs.OtgCore.AllocChannel | src/usb/stm32_usbh/usbh_hcs.c:115-126 | the channel found is marked used with its endpoint address |
| Hcs.OtgCore.FreeChannel | src/usb/stm32_usbh/usbh_hcs.c:134-141 | the used mark of one channel is cleared |
| Hcs.OtgCore.DeAllocateAllChannels | src/usb/stm32_usbh/usbh_hcs.c:150-159 | channels 2 to 7 are cleared, 0 and 1 are kept |
| Hcs.OtgCore.OpenChannel | src/usb/stm32_usbh/usbh_hcs.c:43-68 | the parameters of a channel and its register are set, with both toggles cleared |
| Hcs.OtgCore.ModifyChannel | src/usb/stm32_usbh/usbh_hcs.c:81-107 | only a non-zero address or packet size is changed |
| Control.SendInv | src/usb/stm32_usbh/usbh_core.c:632-834 | each submitting state adds the right stage, DATA1 and in the right direction, to the same address |
| Control.WaitRestarts | src/usb/stm32_usbh/usbh_core.c:836-856 | a request goes back to SETUP at most three times, whatever the error counter held |
| Control.WaitProgress | src/usb/stm32_usbh/usbh_core.c:640-856 | polling keeps the shape of the transfer, and leaves it only in a final state |
| Control.HandleControlInv | src/usb/stm32_usbh/usbh_core.c:619-863 | every step of a control transfer keeps all of that |
| Control.CompleteMeansStandardIff | src/usb/stm32_usbh/usbh_core.c:619-863 | a completed transfer is SETUP, data if and only if wLength is not zero, then status; it meets section 8.5.3 of USB 2.0 if and only if it is not a device-to-host request of length zero |
| Control.ZeroLengthReadCompletes | src/usb/stm32_usbh/usbh_core.c:640-834 | every device-to-host request of length zero that meets no error does complete, by a transfer that is not standard |
| RequestEnds.RequestEndsIff | src/usb/stm32_usbh/usbh_core.c:640-856 | in every run a request ends as complete, stalled or in error exactly under the stated conditions on its stage and on what the poll finds, goes to the error state on the faults listed and no others, and repeats an OUT stage for which the device was not ready |
| RequestEnds.FailedRequestRepeats | src/usb/stm32_usbh/usbh_core.c:424-610 | a request that was refused or has failed is made again, the same one in the same state of enumeration, two calls later |
| HostProgress.EveryCallLowers | src/usb/stm32_usbh/usbh_core.c:205-390 | every call that finds the device there and answering lowers a count, until the class runs |
| HostProgress.AlwaysEnumerates | src/usb/stm32_usbh/usbh_core.c:205-390 | from wherever any run has brought the host, through errors, stalls, time-outs and reconnections, 160 calls that find the device there and answering bring it to its class |
| ControlBus.StepInv | src/usb/stm32_usbh/usbh_core.c:619-863 | control machine and channels together: every request, poll and interrupt, as long as no transfer still going on is given up, keeps a channel that is not live at rest, and a live one without outcome and waited for |
| ControlBus.EveryStageOwn | src/usb/stm32_usbh/usbh_core.c:640-834 | over any requests, outcomes and interrupts: unless such a transfer is given up, every stage counted as done had a transfer-complete of its own |
| ControlBus.TimeoutIsStaleIff | src/usb/stm32_usbh/usbh_core.c:700-726 | after a timeout of an IN stage, some run counts a stage as done that had no transfer-complete of its own if and only if the channel had not been halted when the machine gave up |
| ControlBus.StaleStageHappens | src/usb/stm32_usbh/usbh_core.c:700-856 | and that happens, with every request that has an IN stage |
| ControlBus.TimeoutResubmitsIff | src/usb/stm32_usbh/usbh_core.c:700-856 | after such a timeout the same request submits on the IN channel again, without its having had an outcome, if and only if the error counter allows another try |
| ControlBus.WaitsForEverIff | src/usb/stm32_usbh/usbh_core.c:640-834 | no run changes the control machine any more if and only if it waits for an OUT stage that has ended in a way its state has no case for |
| ControlBus.HaltWaitsIff | src/usb/stm32_usbh/usbh_core.c:640-834 | which halts do that: in `CTRL_SETUP_WAIT` all but those of a completion and a transaction error, in `CTRL_DATA_OUT_WAIT` that of a toggle error, in `CTRL_STATUS_OUT_WAIT` those of a stall and a toggle error |
| ControlBus.WaitsForEverIsReached | src/usb/stm32_usbh/usbh_core.c:640-834 | each of these stages and causes is reached from the start |
| HostBus.StepInv | src/usb/stm32_usbh/usbh_core.c:205-390 | host core, control machine and channels together: every call of `USBH_Process` and every interrupt keeps the joint invariant, unless a transfer still going on is given up |
| HostBus.RequestsHaveOwnStages | src/usb/stm32_usbh/usbh_ioreq.c:44-87 | over any connects, disconnects, replies and interrupts: unless such a transfer is given up, a request reports `USBH_OK` only after its SETUP, its data if it has any and its status have each been counted as done after a transfer-complete of their own |
| HostCore.InitialInv | src/usb/stm32_usbh/usbh_core.c:142-171 | initialisation establishes the invariant |
| HostCore.AttachInv | src/usb/stm32_usbh/usbh_core.c:246-279 | attaching allocates channels 0 and 1 and opens both at address 0 |
| HostCore.ClassInitInv | src/usb/stm32_usbh/usbh_cdc.c:57-115 | starting the class allocates channels 2 and 3 and opens both at address 1 |
| HostCore.DisconnectInv | src/usb/stm32_usbh/usbh_core.c:363-385 | disconnecting frees every channel, even before the final sweep |
| HostCore.CtlReqInv | src/usb/stm32_usbh/usbh_ioreq.c:44-87 | a request is started from enumeration and resumed only in a final state |
| HostCore.AdvanceInv | src/usb/stm32_usbh/usbh_core.c:431-608 | what a completed request changes keeps the invariant |
| HostCore.EnumInv | src/usb/stm32_usbh/usbh_core.c:424-610 | every step of enumeration keeps it |
| HostCore.ProcessInv | src/usb/stm32_usbh/usbh_core.c:205-390 | every call of `USBH_Process` keeps it |
| HostCore.RunInv | src/usb/stm32_usbh/usbh_core.c:205-390 | every run keeps it, and never uses a channel number out of range |
| HostCore.HostAlwaysSound | src/usb/stm32_usbh/usbh_core.c:205-390 | in every run of connects, disconnects, errors and replies: a control transfer belongs to enumeration, restarts at most three times, the channels used are the control pair and the CDC pipes at most, none in `HOST_IDLE`, and allocation never fails |
| HostCore.RequestsAreTransfers | src/usb/stm32_usbh/usbh_ioreq.c:44-87 | a request reports `USBH_OK` only after a complete transfer of the setup packet sent for it, a standard one if and only if it is not for a configuration of claimed length zero; what that packet says is stated field by field by `Enumeration.RequestsAreStandard` |
| HostCore.NonStandardRequestHappens | src/usb/stm32_usbh/usbh_core.c:511-524 | from every initial state there is a run in which a request reports `USBH_OK` after a transfer that is not standard |
| HostCore.AdvancesFollowRequests | src/usb/stm32_usbh/usbh_core.c:424-610 | enumeration advances one state at a time, and only when the request of that very state has been completed, stage by stage, or for an absent string; the order and the contents are those of `Enumeration.ConfiguredIsEnumerated` and `Enumeration.RequestsAreStandard` |
| HostCore.TrafficAddress | src/usb/stm32_usbh/usbh_core.c:467-494 | everything up to the status stage of SET_ADDRESS goes to address 0, everything later to address 1 (section 9.4.6 of USB 2.0) |
| Enumeration.RequestsAreStandard | src/usb/stm32_usbh/usbh_core.c:424-610 | in every run each request that completes is the literal standard request of its state by section 9.4 of USB 2.0; what varies in it (total length, string indices, configuration value) comes from the last replies of the same run |
| Enumeration.ConfiguredIsEnumerated | src/usb/stm32_usbh/usbh_core.c:424-610 | a device that is configured has been asked for everything in its order: both device descriptors, its address, both configuration descriptors, every string it has and no other, and its configuration |
| Enumeration.ConfigurationIff | src/usb/stm32_usbh/usbh_core.c:495-524 | a configuration is read in full if and only if it fits the 1,024 bytes of the buffer, and left behind if and only if it could be parsed; otherwise it is asked for again |
| Enumeration.ControlPipeFollowsReply | src/usb/stm32_usbh/usbh_core.c:246-279 | while a device is there both channels of the control pipe are open on its endpoint 0 at its speed, with packets of 64 bytes until the first reply has given another size |
| Enumeration.ClassHasPipes | src/usb/stm32_usbh/usbh_cdc.c:57-115 | once the class is started, both pipes are open on the two endpoints of the device, each in its direction, with its packet size, at the address and speed of the device, and beginning with DATA0 |
| UsbHost.HostHandle.Process | src/usb/stm32_usbh/usbh_core.c:205-390 | `USBH_Process` in place: it computes the function of `HostCore` and keeps its invariant |
| Descriptors.ConfigReadsBack | src/usb/stm32_usbh/usbh_stdreq.c:391-399 | the fields read are those laid out by section 9.6.3 of USB 2.0 |
| Descriptors.InterfaceReadsBack | src/usb/stm32_usbh/usbh_stdreq.c:480-492 | likewise for an interface, section 9.6.5 |
| Descriptors.EndpointReadsBack | src/usb/stm32_usbh/usbh_stdreq.c:501-511 | likewise for an endpoint, section 9.6.6 |
| Descriptors.GetNextDesc | src/usb/stm32_usbh/usbh_stdreq.c:551-560 | both positions move to the next descriptor, or behind the last to the end; `ptr` stays exactly 9 ahead of the offset and never wraps |
| Descriptors.NothingBehind | src/usb/stm32_usbh/usbh_stdreq.c:409-459 | the loop cannot end while an interface is ahead |
| Descriptors.MoreToCome | src/usb/stm32_usbh/usbh_stdreq.c:409-411 | while the loop goes on there is a descriptor to read inside the configuration, unless the last is longer than 9 bytes |
| Descriptors.DeviceProp.ParseEndpoints | src/usb/stm32_usbh/usbh_stdreq.c:424-450 | the inner loop stores the interface and its endpoints up to the first smaller packet size, the first endpoint being compared with what was last stored under that number |
| Descriptors.DeviceProp.ParseInterfaces | src/usb/stm32_usbh/usbh_stdreq.c:406-459 | the outer loop ends and stores every interface of a lower alternate setting, up to the first with too many endpoints |
| Descriptors.DeviceProp.ParseCfgDesc | src/usb/stm32_usbh/usbh_stdreq.c:371-470 | on the bytes of any well-formed configuration, whatever earlier calls left behind: the header, the status, the tables and both static variables; and whether what lies behind is taken for an interface, exactly if the last descriptor is longer than 9 bytes and the type byte behind says so |
| Descriptors.AcceptedAllIff | src/usb/stm32_usbh/usbh_stdreq.c:430-448 | all endpoints are stored if and only if the interface is recoverable (alternate setting below 3, an endpoint, packet sizes that never decrease) and not held against an earlier endpoint |
| Descriptors.StoredExactly | src/usb/stm32_usbh/usbh_stdreq.c:371-470 | for each interface, exactly the accepted endpoints are stored and every other entry of its rows is as before; nothing is stored for a number without a row |
| Descriptors.RecoversIff | src/usb/stm32_usbh/usbh_stdreq.c:371-470 | with distinct interface numbers, parsing recovers every interface and endpoint, whatever the tables held, if and only if each interface is recoverable and the first is not held against an endpoint left in the static variables |
| Descriptors.FailedCallLeaves | src/usb/stm32_usbh/usbh_stdreq.c:452-456 | a call that fails on too many endpoints leaves the last endpoint stored before, number and packet size, for the next call |
| Descriptors.SuccessLeavesNone | src/usb/stm32_usbh/usbh_stdreq.c:466-467 | after a call that succeeds the next one recovers its configuration if and only if every interface is recoverable |
| Descriptors.ReadsOnIff | src/usb/stm32_usbh/usbh_stdreq.c:409-411 | the walk of the loop over the bytes of a configuration gets past its end if and only if the last descriptor is longer than 9 bytes |
| Sort.Exchange | src/util.c:289-293 | swapping keeps the array a permutation |
| Sort.Scan | src/util.c:283-294 | the scans with no bound but the pivot never leave [l, r] and split the stretch by the pivot |
| Sort.Partition | src/util.c:275-297 | the pivot ends at its place, smaller elements before it, the rest after |
| Sort.PartitionOrders | src/util.c:275-297 | after partition only pairs on one side of the pivot can be out of order |
| Sort.Split | src/util.c:275-297 | partition, seen from the whole stretch |
| Sort.SortLeft | src/util.c:299-301 | recursion into the left side when it is the smaller |
| Sort.SortRight | src/util.c:302-305 | recursion into the right side otherwise |
| Sort.QsortRange | src/util.c:268-308 | any stretch is sorted in place for any total preorder, permuting only itself, with 2^depth at most its length |
| Sort.Qsort | src/util.c:310-314 | the whole array becomes a sorted permutation of itself, with recursion at most floor(log2 n) deep |
| Memory.MemcpyFast | src/util.c:65-74 | block copies, each loaded before it is stored, are right for a lower destination even when ranges overlap |
| Memory.Memcpy | src/util.c:45-63 | `memcpy`, through the aligned fast path and the byte loop, moves every byte for a lower or disjoint destination |
| Memory.Memmove | src/util.c:94-105 | for every pair of ranges each destination byte is the original source byte and nothing else changes |
| Memory.UpwardsRepeats | src/util.c:61-62 | copying upwards into a higher range, what lies beyond its start repeats what has just been copied |
| Memory.UpwardsMovesIff | src/util.c:94-105 | so the other direction is needed: copying upwards into a higher range moves it if and only if the source repeats itself at the distance of the ranges |
| CrcShift.FeedLinear | src/crc.c:47-54 | one shift of the register is linear: the difference of two registers moves as a register fed the difference of the inputs |
| CrcShift.FeedInjective | src/crc.c:47-54 | different registers never meet again on equal bits |
| CrcTable.TableClosed | src/crc.c:12-45 | all 256 table entries are the closed form of eight shifts |
| Crc.FeedByte | src/crc.c:51-52 | one table look-up is eight steps of the shift register |
| Crc.Crc16Ccitt | src/crc.c:47-54 | for every message and initial value the table-driven loop computes the bit-serial checksum, polynomial 0x1021, most significant bit first |
| Crc.CrcSplit | src/crc.c:47-54 | a checksum can be continued: it splits over concatenation |
| Crc.CrcOfOwnChecksum | src/crc.c:47-54 | continued over its own two bytes, high byte first, it is zero |
| Crc.BurstDetected | src/crc.c:47-54 | bit strings that differ only within 16 consecutive bits have different checksums |
| Crc.BurstNeverMissed | src/crc.c:47-54 | so have messages of one length, for the same initial value |
| Crc.BurstOf17Missed | src/crc.c:47-54 | sixteen is the most: a 17-bit burst goes unnoticed |
| Printf.Putch | src/string.c:12-17 | a character beyond the end is counted and not stored |
| Printf.PutRepeated | src/string.c:142-143 | padding adds exactly the missing width |
| Printf.ReadModifiers | src/string.c:40-64 | the modifier loop reads flags, width and length as specified |
| Printf.WordDigits | src/string.c:133-141 | at most 11 digits in any base used, so the 12-byte scratch array suffices |
| Printf.FillDigits | src/string.c:133-141 | the scratch array holds the digits, least significant first |
| Printf.PutText | src/string.c:81-89 | %s, padded on the right |
| Printf.PutNumber | src/string.c:97-147 | a number with its length modifier, sign, prefix, padding and digits |
| Printf.PutConverted | src/string.c:66-147 | each conversion in place: it puts the text of `Converted` and takes its argument; what that text is for each letter is stated by the rows of `Conversions` |
| Printf.Vsnprintf | src/string.c:19-156 | for every well-formed format, arguments and size: the full length of `Format` is returned and memory is as the truncating writer leaves it (section 7.19.6.12 of ISO/IEC 9899:1999); the rows of `Conversions` say what `Format` is, letter by letter |
| Printf.WrittenMeans | src/string.c:150-155 | that is: the first min(length, size - 1) characters and a terminator, and no other memory changes |
| Conversions.SignedReads | src/string.c:69-71 | %d and %i, for every argument, flags and width: the text read in base 10 is the signed value of the argument at its length, and is read whole |
| Conversions.UnsignedReads | src/string.c:72-74 | %u: the same in base 10 with the unsigned value |
| Conversions.PrefixedReadsIff | src/string.c:66-80 | %o read in base 8, and %x, %X and %p in base 16, give the unsigned value if and only if no spaces come between a prefix and the digits |
| Conversions.CharactersOf | src/string.c:137-141 | which characters may occur: the digits of the base, A to F only for %X, a to f only for %x and %p, an x only in a prefix, a minus only for %d and %i |
| Conversions.PlainIs | src/string.c:111-120 | without a width: a minus exactly for a negative value, and digits without leading zeros |
| Conversions.AlternateIs | src/string.c:122-131 | # puts 0 before an octal and 0x before a hexadecimal number and nothing before a decimal one |
| Conversions.PaddedTo | src/string.c:142-147 | a shorter text is filled up to the width at one place, with zeros behind sign and prefix or with spaces before the sign |
| Conversions.OthersPrint | src/string.c:81-95 | %s prints its text and spaces up to the width, %c one character, any other letter itself without taking an argument |
| Conversions.ModifiersRead | src/string.c:40-65 | #, 0, a width and h or hh, each there or not, are understood as such |
| Conversions.StarReads | src/string.c:42-44 | * takes the width from the arguments, as a signed number |
| Conversions.FormatSplits | src/string.c:25-29 | outside of directives a format prints itself |
| Conversions.DirectivePrints | src/string.c:39-147 | a directive prints its conversion, and what follows goes on with the arguments left |
| Conversions.ErrorShown | src/main.c:102-107 | the number of an error is shown as E and two decimal digits, the tens first |
| Strtol.Strtol | src/util.c:212-266 | for every text and base the value and the position where reading stops, with no signed overflow on the way |
| Strtol.ScanDigits | src/util.c:247-260 | the accumulator never exceeds the result, hence never 2^31 - 1 |
| Strtol.FoldDigits | src/string.c:133-147 | reading the digits of a number gives the number |
| Strtol.DecimalReadsBack | src/util.c:212-266 | base-ten reading of %d output, any width, spaces or zeros, returns the number and takes the whole text; it fits a long if and only if the number lies strictly between -2^31 and 2^31 |
| Strtol.UnsignedReadsBackIff | src/util.c:212-266 | the text of any unsigned radix reads back in that radix if and only if no padding space lands between a prefix and the digits |
| Strtol.HexPrefixReadIff | src/util.c:231-242 | for every text with a prefix 0x or 0X behind its spaces and sign, and every base: the prefix is read if and only if the base is 16; otherwise the value is zero and reading stops at the x |
| Strtol.ReadsSigned | src/util.c:218-260 | behind any white space (all six characters) and a sign, + or - or none, the digits of the base are read with that sign up to the first character that is not one |
| Strtol.ValueByCode | src/util.c:247-256 | the value of every character as a digit, by its code and in either case |
| Pins.RowsDecide | src/main.c:391-473 | a board on which each pin driven low alone shows itself and nothing else is the identity, and faithful to every pattern; and conversely |
| Pins.CheckIff | src/main.c:196-217 | a check passes if and only if the asserted pin, and no other, is seen low |
| Pins.CheckLowIff | src/main.c:446-473 | the last check passes if and only if every pin is seen low |
| Pins.CheckReports | src/main.c:201-216 | a check reports a pin if it is the first, outputs before inputs, whose level is not the one expected |
| Pins.ReportedPin | src/main.c:201-216 | and only then: the pin reported is tested and seen low exactly if it is not the asserted one, and every pin before it is right |
| Pins.LowReports | src/main.c:454-471 | the last check reports the first pin that is high |
| Pins.ReportedHigh | src/main.c:454-471 | and no other |
| Commands.PinBitIff | src/main.c:185-194 | a pin command has 32 bytes and number 1, and bit p % 8 of byte 4 + p / 8 is set if and only if pin p is to be high |
| Commands.DecodeEncoded | inc/testmode.h:12-30 | a reader written from the layout of the command structure gets every command back from its bytes |
| Commands.PinMessage | src/main.c:185-194 | clearing one bit of eight bytes of ones makes the command that drives that pin alone low |
| Pins.Port.SetPinmask | src/pins.c:63-69 | the output pins take the levels of the mask; there are no others |
| Pins.Port.ReadPinmask | src/pins.c:71-82 | exactly the input pins that are high appear in the mask |
| Pins.CheckPins | src/main.c:196-217 | the two loops report what `Check` does, the first wrong pin by `Pins.CheckReports` |
| Pins.CheckLowPins | src/main.c:446-473 | the loops of the last check report what `CheckLow` does, the first high pin by `Pins.LowReports` |
| Sequencer.StepOrder | src/main.c:356-571 | every turn of the main loop, whatever is reported and sensed, keeps the order of states, commands and pipes; no callback is ever out of place |
| Sequencer.RunOrder | src/main.c:356-571 | so does every run |
| Sequencer.AnswerDecidesIff | src/main.c:201-206 | every check says what it would say of the packet if and only if the packet has at least 5 bytes; otherwise some pins are checked on what an earlier answer has left |
| Sequencer.ProcessBoard | src/main.c:117-129 | polling the pipes and their callbacks keeps what is known about the board |
| Sequencer.HandleBoard | src/main.c:131-163 | so does handling a response |
| Sequencer.PinChecked | src/main.c:196-217 | the check after driving one pin passes if and only if the board is faithful to that pin |
| Sequencer.EnterCheckIn | src/main.c:403-407 | state 5 checks the pin that state 4 drove |
| Sequencer.EnterCheckOut | src/main.c:432-436 | state 10 checks the pin that state 8 drove |
| Sequencer.EnterBoard | src/main.c:368-571 | entering each state keeps what is known about the board |
| Sequencer.StepInv | src/main.c:356-571 | every turn on which the board and what is in the response buffer show what is driven keeps it |
| Sequencer.RunInv | src/main.c:356-571 | so does every run that has been truthful, with the bytes that matter in each answer, since the program last started |
| Sequencer.NoPipelining | src/main.c:117-174 | in every run a command is sent only when every earlier one has had an answer and both pipes are quiet; an answer is a packet with at least one byte that was waited for and reported done; busy states coincide with busy pipes and never overlap, and the two bad-callback errors never occur |
| CommandRule.LastAnswer | src/main.c:124-156 | a command counts as answered by exactly one packet, whatever its length |
| CommandRule.RuleKeptIff | inc/cdc_acm_protocol.h:16-17 | in every run no command is sent before the previous one has all its expected bytes if and only if each packet that ends an answer after which another command comes has at least the expected bytes |
| CommandRule.ShortPacketsBreakRule | src/usb/stm32_usbh/usbh_cdc.c:347-362 | as long as no packet has 34 bytes, as with a smaller IN endpoint, the rule is kept only by a run with one command at most |
| CommandRule.ShortAnswerHappens | src/usb/stm32_usbh/usbh_cdc.c:347-362 | any answer of 1 to 33 bytes to GetInfo is followed by the next command after seven turns, without an error, on every board |
| Sequencer.StateTwentyIsReached | src/main.c:391-553 | each walk makes exactly twelve passes, and a run without error is in state 20 or beyond after exactly 509 turns of the switch and 225 commands |
| Sequencer.WalkingZeroComplete | src/main.c:391-473 | if since the program last started one board was sensed, the device has driven what it reads in the bytes sent and reported what it sees, and each answer to a pin command had at least 5 bytes: passing the walking-zero test proves the board right for every pattern of driven pins, and an identity board never fails it |
| Sequencer.PinErrorMeans | src/main.c:196-217 | under the same conditions an error that names a pin names one that at that step is seen otherwise than it is driven |
| Script.StateTable | src/main.c:368-571 | in every run, state by state: the command that the device reads in the bytes sent, how many bytes of answer are expected, and which pins each side drives high |
| Script.StopsExactly | src/main.c:131-163 | in every run: which turns stop the program and with what error (a late command or answer, a wrong answer to the test-mode command, each check other than of pins), all of them and no others; and the device going away always starts it again |
| Script.GatesPassed | src/main.c:374-545 | a run without error that has come to state 2, 14, 16, 18 or 19 or beyond has passed the check of that state since the program last started |
| Decides.AlwaysFinishes | src/main.c:356-571 | from wherever the program has got without an error, if from then on everything is in time and every other check passes, after 36,210 turns it has reported a pin or is in state 20 or beyond |
| Decides.TestDecides | src/main.c:356-571 | so the test decides: under the conditions of `Sequencer.WalkingZeroComplete` the program is then without an error if and only if the board is right |
| WalkRuns.IdentityPasses | src/main.c:356-571 | every identity board can pass the whole test |
| WalkRuns.CrosstalkPasses | src/main.c:196-217 | without the 5 bytes a board with crosstalk can pass it too, although all that the device reports is right |
| MainLoop.TestLoop.Iterate | src/main.c:356-571 | one turn of the main loop in place computes `Sequencer.Step`, to which all the rows above about runs apply |

## Left out

- Register plumbing: clock and exception setup, GPIO modes, OTG core initialisation, FIFO flushing, port reset, channel halt and enable bits. It is hardware access with nothing to prove beyond constants.
- Device mode, high speed, DMA, isochronous and interrupt transfers, pings, suspend and resume: the firmware does not use them, so their branches and interrupt bits are absent.
- FIFO handlers and the received byte count of a bulk IN packet: the number of bytes is an input of the receive machine, and its data are not modelled.
- LED display, tones, ADC and oscillator measurements, option-byte and header checks: each is one boolean input of the sequencer. `console.c` and the crash code are not part of this model.
- Interrupt handlers and the calls that mask the timer interrupt are single steps of the timer machine; ticks pass between them. A raised interrupt stays pending when the hardware timer is set again.
- TimerSystem.ClockAlwaysRight: assumes that the handler finishes within the latency, that the two reads of a `time_now` that is interrupted lie at most the gap apart, that the program's own calls of `timer_set` are at least two ticks apart, and that deadlines are set less than 2^31 ticks (minus the latency) into the past. One such call takes longer than those two ticks, which are 16 clock cycles.
- TimerSystem.TimersAlwaysServed: callbacks other than the stamp renewal are represented by the sets and cancels they make.
- Channel.DoneMeansComplete: assumes no resubmission between an event and the halt it asks for; `Channel.StaleDoneEverIff` says what happens otherwise, and `ControlBus.TimeoutIsStaleIff` when the control machine does not wait.
- ControlBus.EveryStageOwn: an interrupt is raised only on a channel submitted to and not yet halted; a transfer-complete after a submission counts as that submission's own. Unplugging is the subject of `HostCore`.
- CommandRule.RuleKeptIff: the bytes of an answer are counted by packet; what a device sends of an answer after the packet that ended it is not followed.
- Cdc.CdcHandle.Receive: the pointer to the buffer is not modelled; the response buffer itself is part of `Sequencer`.
- BulkIn.CallbackHasPacket: assumes that nothing is raised on a halted channel and that a new reception waits for the previous callback.
- HostProgress.AlwaysEnumerates: what the polls find is an input here; a control machine that waits for ever (`ControlBus.WaitsForEverIff`) never gets such polls until the device is unplugged.
- HostBus.RequestsHaveOwnStages: a disconnection and the opening of the control pipe leave both channels freshly opened.
- TimerList.TimerUnit.Expire: which function a timer calls is not modelled; the popped timer is returned to the caller.
- BulkOut.ExactlyOnce: assumes that the hardware raises transfer-complete only after an acknowledgement and nothing on a halted channel, and that a new message waits for the previous callback.
- Timeouts of control transfers and of the sequencer are boolean inputs.
- What descriptors say is an input of enumeration, down to the two endpoints that the class takes; the bytes are the subject of `Descriptors` alone. Device and string descriptors are not parsed. Whether the interface is a CDC one is an input as well.
- Descriptors.DeviceProp.ParseCfgDesc: takes well-formed configurations: at least as many endpoints behind an interface as it claims (more are passed over), an interface number below 2 wherever an endpoint would be stored, since the tables have no row for another, and a buffer that goes on for two bytes behind a last descriptor of more than 9. What comes of bytes behind the configuration that are taken for an interface is not followed.
- Printf.Vsnprintf: takes formats that fit their arguments and do not end inside a directive; a width beyond 2^31 and a null buffer are not modelled. `char` is unsigned, as on the target.
- Strtol.Strtol: takes texts whose value fits a long; what signed overflow would do is not modelled. `endptr` is always returned.
- Pin masks of 64 bits are sets of pins; the bytes of an answer are taken as such a set, those of a command are made and read back (`Commands.DecodeEncoded`).
- Sequencer.WalkingZeroComplete: the device is taken to drive what it reads in a pin command and to report what it sees, as far as its packet goes; the wiring does not change between two starts of the program; wires only pull low.
- Memory.Memmove: addresses are indices into one memory; `memset` and the string helpers of `util.c` are not modelled.
- Sort.Qsort: pointers are integers and the comparator a function on them; the overflow of `l + r` needs arrays no such memory can hold.
