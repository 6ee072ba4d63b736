# Virtual disk bus: a verified model

The repository is a Windows virtual-disk system. A bus driver (`bus/`) exposes disks to the class drivers; a user-mode
service (`umode/disksrv/`) owns the backing files. SCSI packets are queued per disk in the driver, fetched one at a time
by the service through GET_REQUEST, carried out by one worker thread per disk on a buffer both sides share, and completed
through SEND_REPLY. Disks come and go by plug and play while all of this is going on.

The project has three layers, which share the functions of modules `Blocks`, `Packets`, `Driver` and `Pnp`; `PnpRequests`
follows a disk through sequences of plug-and-play requests.

- **Routines.** `Extensions`, `BusEnum`, `CancelSafeQueue`, `DiskService`, `Pnp` and the class in `Blocks` are the
  routines as imperative code on device extensions, queues, buffers and files, each proved against a function on values.
- **Whole routines in any order.** `Driver` and `DriverRuns` treat each driver routine as one step: first in, first out
  per disk, the closed form of the GET_REQUEST scan, conservation of GET_REQUEST packets.
- **Sections in any order.** `Pipeline*` is a step machine over the driver's sections, the fetch thread and the workers;
  `Lifecycle*` is a step machine over AddDisk calls, plug-and-play requests, removals and the bus cleanup. Their theorems
  are about every run.

## Granularity and premises

- One section under a `PDOLock` is one step, and so is the take-and-put-back of a fetcher inside `BusStartNextPacket`.
  The code's locks are per disk and do not give the latter: `HalvesMakeTheStep` splits the step, `SplitPutBackIsExact` says
  exactly when that loses a wake-up, whatever other threads do in between, and `PutBackStrands` is a run on which it does.
- The clearing of `CurrentIrp` and the later `BusStartNextPacket` of a reply are two steps, as are the reply's look-up and
  its section. FindDisk, the write to the mailbox, the setting of its event, and each look at the mailbox are steps of
  their own.
- The walk of GET_REQUEST over the list takes no lock. Following a link to the next entry and running
  `BusStartNextPacket` there are two steps; the second does not look whether the disk is still listed. An entry taken off
  the list keeps its own link (`Flink`), so a walk that stands on it goes on from there, also to entries that are off the
  list by then.
- The removal of a disk is unlinking it, clearing `CurrentIrp`, one step per packet drained from the queue, and the end
  that sets the removal event; the deletion of the service's processor is a further step. Registering a disk is one step
  in `Pipeline`; `Lifecycle` splits it.
- Packets arrive at a disk only while it is linked. This is a guarantee of the class driver and the operating system: the
  class driver passes a remove request down only after its own calls into the bus have returned, and sends no packet after
  it, so no call of `Bus_Scsi` is past the check of the device state when the disk is unlinked.
- The extension of a deleted disk stays readable for a call or a walk already inside the driver. A run ends where a copy
  would leave its buffers (`Pipeline.Defined`); `BoundsAreExact` says where that is.
- Packets are READ(10) or WRITE(10) whose transfer length equals the addressed blocks and fits the 256 KiB buffer, which
  is what the class driver owes the bus. A packet in flight is not cancelled. The operating system's verdicts on opening,
  sizing, seeking and transferring are parameters. In `Pipeline` a failed storage call reports no more bytes than it was
  asked for.
- `Pipeline.Enabled` is what the code allows and `Pipeline.Premise` what the theorems ask beyond it: an id is not
  registered again while the fetch thread carries a request for a removed disk of that id, and a processor is not deleted
  between the fetch thread's `FindDisk` and its `SetEvent`. The code ensures neither; see below.
- The operating system's queue, event, remove-lock and file services enter as their contracts: a queue over the
  repository's own callbacks, a flag, a counter, a byte sequence with a position.

## Where the code falls short

Eleven promises do not hold of every interleaving. For each there is a run that breaks it and the exact condition. A packet is
stray if it becomes current after the removal of its disk has cleared `CurrentIrp`; `StrayIsExact` says when one is ever
completed.

| promise | breaks on | holds exactly when |
|---|---|---|
| a removal completes every packet of its disk | `WalkStrands`, `RemovalStrands` | at the clearing of `CurrentIrp` no packet waits, or no `BusStartNextPacket` is owed to the disk: none by its reply, and none by a walk that still has its fetcher (`ClearIsExact`; from the unlinking on, `RemovalIsExact`) |
| the system drains all packets | `WalkStrands`, `RemovalStrands` | every disk is sheltered: linked, or with no packet that is or can become stray and stay so (`DrainIsExact`) |
| a reply completes the packet it belongs to | `WrongReplyCompletes` | the removal of the disk has not cleared `CurrentIrp` (`OwnReplyIsExact`) |
| the copy-out of a reply stays inside the requester's buffer | `WrongReplyOverruns` | no late reply finds a stray READ shorter than its own count (`BoundsAreExact`) |
| `ASSERT (Irp)` in `Bus_ProcessReply` | `LateReplyFailsAssertion` | the removal of the disk has not cleared `CurrentIrp`, or a packet is stray (`AssertionIsExact`) |
| the mailbox is written only after its last read | `MailboxIsOverwritten` | no packet of the disk is stray (`MailboxIsSafe`); when one has become so, over all continuations: no earlier request is unread, and no late reply can complete it with another packet waiting (`ClashIsExact`, `OwedStartClashIsExact`, `LateVisitClashIsExact`) |
| a packet queued beside a parked fetcher is owed a start, with take and put-back as two steps | `PutBackStrands` | while the fetcher is out, no packet arrives on an idle disk that is owed no start, and no disk that waits has its last owed start run, or such a disk does not wait to the end (`SplitPutBackIsExact`) |
| packets start in arrival order | `OvertakingHappens` | no fetcher is parked while the disk is idle with work (`OvertakingIsExact`) |
| a disk has one token per current packet across id reuse, and its file changes by its own WRITEs only | `StaleWriteLands` | the fetch thread carries no request for the id (`ReuseIsExact`) |
| a cancelled query leaves a disk in the state of the last request in force | `NestedQueriesStick` | no query comes while another is in force (`NestingIsExact`, `StateFollows`) |
| the last removal releases `Bus_FDO_Cleanup` | `ReleaseCanBeLost` | a disk is linked or a removal pending at the reset (`ReleaseIsExact`) |

That the processor `FindDisk` returned is alive at `SetEvent` is a premise of the theorems: `WindowIsReached` is a run that
would delete it, and by `WindowIsExact` nearly every hand-over has a continuation that does.

The comment at bus/pnp.c:1203-1207 presents the walk over the PDO list as what keeps serial numbers unique. For the calls
of this service it never decides anything: the service's own map does (`UniquenessCheckNeverRefuses`).

## Model

| member | source | states |
|---|---|---|
| `PipelineReads.ReadsReturnWrites` | umode/disksrv/disksrv.cpp:298-336 | in every run, a READ completed successfully by its own reply returns exactly the bytes its extent has in the array of its own disk, replayed up to the step at which the READ became current; the rest of the requester buffer and all earlier completions are untouched |
| `PipelineReplies.OwnReplyIsExact` | bus/busenum.c:772-787 | a reply finds the packet that was current when its worker took the request if and only if the removal of the disk has not cleared CurrentIrp |
| `PipelineReplies.RepliesAreFaithful` | bus/busenum.c:789-825 | a reply completes exactly the packet that is current, with its status and count, and for a READ with that many bytes of the shared buffer, whether the storage call succeeded or not; a reply to its own packet is always in bounds, and a successful WRITE has its full length |
| `PipelineReplies.StepIdentifies` | bus/busenum.c:666-835 | packets of a disk stay different, and the record of the packet a worker serves names no queued packet |
| `PipelineReads.FlightBegan` | bus/busenum.c:704-707 | a packet whose storage call has not failed became current at some step of the run, and the array of its disk has been the same since |
| `PipelineReads.FlightStep` | bus/busenum.c:666-835 | no step changes the array of a disk under a packet in service |
| `PipelineRefinement.IdleFileIsArray` | umode/disksrv/disksrv.cpp:318-334 | until the removal of a disk clears CurrentIrp, whenever no packet is in flight its backing file equals the replayed array, whatever was interleaved on other disks |
| `PipelineRefinement.RunRefines` | umode/disksrv/disksrv.cpp:273-340 | every state of every run refines the array of bytes per disk: a dispatched WRITE counts as written from the moment it becomes current |
| `PipelineRefinement.StepRefines` | bus/busenum.c:604-653 | each single step changes the array only as the observed action says: a WRITE at dispatch, a registration, or what a failed storage call left |
| `PipelineRefinement.DispatchIsBecomingCurrent` | bus/busenum.c:704-707 | the recorded dispatches are exactly the changes of CurrentIrp from empty to a packet |
| `PipelineReads.NothingStartsInFlight` | bus/busenum.c:1076-1080 | while a packet is current on a disk no WRITE becomes current there |
| `PipelineRefinement.ServeRefines` | umode/disksrv/disksrv.cpp:318-334 | the storage call of a WRITE turns the file into the array, using the staged payload and the packet address |
| `PipelineRefinement.ReadReturns` | bus/busenum.c:807-813 | the copy-out of a READ reply is the wanted bytes followed by the untouched rest of the requester buffer |
| `PipelineRefinement.InRangeRead` | umode/disksrv/fileplugin.cpp:88-98 | an in-range READ of n blocks at an address yields exactly those blocks, none short |
| `PipelineRefinement.InRangeWrite` | umode/disksrv/fileplugin.cpp:100-112 | an in-range WRITE of n blocks changes exactly those blocks and not the file size |
| `PipelineRefinement.InRangePacket` | bus/busenum.c:624-631 | every extent within the block count has a READ and a WRITE packet that decodes to it |
| `PipelineTheorems.TokenInvariant` | bus/busenum.c:772-787 | in every run a linked disk has a current packet exactly when one token for it exists among request held by the fetch thread, mailbox, worker, reply, and never two |
| `PipelineTheorems.MailboxIsSafe` | umode/disksrv/disksrv.cpp:350-354 | unless a packet of the disk is stray, the unlocked mailbox is overwritten only after its last read, and SetEvent never hits an event that is already set |
| `PipelineMailbox.ClashIsExact` | umode/disksrv/disksrv.cpp:350-354 | when a packet has just become stray: some continuation writes or signals a mailbox still to be read if and only if an earlier request is unread, or a late reply can complete the packet and start another |
| `PipelineMailbox.OwedStartClashIsExact` | bus/busenum.c:829-831 | the same before the owed start of a reply: if and only if the event of an earlier request is set |
| `PipelineMailbox.LateVisitClashIsExact` | bus/busenum.c:907-915 | the same before the visit of a late walk: if and only if an earlier request is unread, or a late reply fits and another packet waits |
| `PipelineRuns.MailboxIsOverwritten` | umode/disksrv/disksrv.cpp:350-354 | a run that ends with the fetch thread about to overwrite a mailbox whose event is set |
| `PipelineTheorems.AssertionIsExact` | bus/busenum.c:772-787 | a reply past its look-up finds its own packet if and only if the removal has not cleared CurrentIrp, and no packet at all if and only if it has and none is stray |
| `PipelineRuns.LateReplyFailsAssertion` | bus/busenum.c:762-787 | the run on which the assertion fails: unlinking and clearing CurrentIrp between look-up and section |
| `PipelineRuns.WrongReplyCompletes` | bus/busenum.c:907-915 | a run on which the late reply of a cancelled READ completes another packet with success: a WRITE never written, a READ with the first one's bytes |
| `PipelineRuns.WrongReplyOverruns` | bus/busenum.c:807-813 | a run after which the copy-out of a late reply would overrun the buffer of another, shorter READ |
| `PipelineTheorems.BufferIsOwned` | bus/busenum.c:642-645 | from dispatch to completion nothing but the disk's own storage call writes its shared buffer, and the current packet is not replaced |
| `PipelineTheorems.WorkerStoresPayload` | umode/disksrv/disksrv.cpp:318-322 | what a woken worker is about to store is the payload of the current WRITE, at that packet's address and length |
| `PipelineTheorems.WakeUpsAreOwed` | bus/busenum.c:905-916 | an idle disk with queued packets while a fetcher is parked is always owed a BusStartNextPacket by its own reply or by a scan that has not reached it |
| `PipelineTheorems.OvertakingIsExact` | bus/busenum.c:1044-1080 | a packet dispatched on arrival overtakes queued ones if and only if the disk is starving, hence only inside the wake-up window |
| `PipelineRuns.OvertakingHappens` | bus/busenum.c:774-830 | for any three different packets, the first a READ, a run on an empty file on which the third overtakes the second |
| `PipelineTheorems.ReuseIsExact` | umode/disksrv/disksrv.cpp:655-666 | registering a free id leaves every linked disk with one token per current packet if and only if the fetch thread carries no request for that id |
| `PipelineRuns.StaleWriteLands` | umode/disksrv/disksrv.cpp:655-666 | a run through the registration of a carried id: the cancelled WRITE of the removed disk lands as zeros in the new disk's file, although no packet was accepted for the new disk |
| `PipelineSplit.HalvesMakeTheStep` | bus/busenum.c:680-715 | taking a fetcher in vain and putting it back are together the step of the machine |
| `PipelineSplit.SplitPutBackIsExact` | bus/busenum.c:680-715 | with any run of other threads between the halves, a disk ends up waiting beside a parked fetcher with no start owed if and only if at some step a packet arrived on it idle and unowed, or its last owed start found no fetcher, and it has waited since |
| `PipelineSplit.StepStrands` | bus/busenum.c:680-715 | the same for one step |
| `PipelineRuns.PutBackStrands` | bus/busenum.c:680-715 | a two-disk run on which this happens, after which a packet is pending and no step of the system is enabled |
| `PipelineDestroy.ClearIsExact` | bus/pnp.c:1049-1078 | at the clearing of CurrentIrp: some continuation makes a packet stray if and only if a packet waits and a start is owed to the disk, by its reply or by a walk that still has its fetcher |
| `PipelineDestroy.RemovalIsExact` | bus/buspdo.c:201-211 | the same from the unlinking on: a packet can become stray if and only if one is already, or one waits and a reply is past its look-up or owes its start, or a walk comes with its fetcher |
| `PipelineDestroy.StrayIsExact` | bus/busenum.c:772-787 | some continuation completes a stray packet if and only if a late reply of its disk is past its look-up and fits |
| `PipelineDestroy.PinnedForever` | bus/pnp.c:1049-1078 | a stray packet that no reply can take stays current on its dead disk in every continuation |
| `PipelineDestroy.Strand` | bus/busenum.c:829-831 | from every state at risk, a run without arrivals and new removals that leaves a packet behind for good |
| `PipelineDestroy.NoMoreComes` | bus/busenum.c:907-915 | once a disk is off the list, no step makes a walk come to it that would not have come before |
| `PipelineWalk.ReachesTakenOff` | bus/buspdo.c:203-207 | taking an entry off the list changes for no other entry whether a walk comes to it |
| `PipelineWalk.ReachesLinked` | bus/busenum.c:907-915 | a walk that stands on the list comes to every listed disk behind it |
| `PipelineDestroy.RemovalAlone` | bus/pnp.c:1049-1092 | a removal that nothing interferes with completes the current packet and then the queue in order, each as cancelled with nothing transferred, and changes nothing else |
| `PipelineTheorems.PinnedIsNeverCompleted` | bus/pnp.c:1049-1078 | in every run, a pinned packet has no completion, then and ever after |
| `PipelineRuns.RemovalStrands` | bus/buspdo.c:201-211 | a run that ends with the disk destroyed and a packet current that no continuation completes, because of the start a reply owed |
| `PipelineRuns.WalkStrands` | bus/busenum.c:907-915 | the same on a disk that never served a packet, because of a walk that came to it before it was unlinked |
| `PipelineMailbox.WindowIsExact` | umode/disksrv/disksrv.cpp:655-666 | from every state between FindDisk and SetEvent some continuation has the worker free to delete the processor, except where a late reply would overrun a stray packet |
| `PipelineRuns.WindowIsReached` | umode/disksrv/disksrv.cpp:404-411 | a run that reaches this window |
| `PipelineSafety.StepKeeps` | bus/busenum.c:666-835 | every step whose copies are in bounds keeps the global invariant |
| `PipelineSafety.BoundsAreExact` | bus/busenum.c:807-813 | every copy of every enabled step is in bounds, except exactly where a late reply finds a stray READ shorter than its count |
| `PipelineSafety.Reachable` | bus/busenum.c:666-835 | the global invariant holds after every run |
| `PipelineSafety.LookupFindsOwn` | bus/busenum.c:750-761 | the look-up of a reply finds the sender's own disk, exactly while it is linked |
| `PipelineInvariant.ReplyKeeps` | bus/busenum.c:772-829 | before CurrentIrp is cleared a reply finds its packet and its copy-out is in bounds; whatever it finds, the section frees the disk and keeps its invariant |
| `PipelineInvariant.ExecKeeps` | umode/disksrv/disksrv.cpp:298-335 | the storage call is on a valid request and its outcome belongs to the current packet |
| `PipelineConservation.ExactlyOnce` | bus/busenum.c:666-835 | in every run each accepted packet is in exactly one queue, one CurrentIrp, or completed once; others nowhere |
| `PipelineConservation.StepConserves` | bus/pnp.c:1490-1502 | arrivals, starts, replies, queued cancellations and each step of a removal keep that count |
| `PipelineConservation.DestroyCancelsCount` | bus/pnp.c:1049-1078 | what a removal in one go completes is, packet by packet, what the disk had |
| `PipelineCompletions.OnlyRepliesSucceed` | bus/pnp.c:1490-1502 | in every run each completion was appended by the step that took its packet out of a disk; it is other than cancelled exactly if that was the section of a reply, and a cancelled one has transferred nothing |
| `PipelineCompletions.StepCompletes` | bus/busenum.c:785-829 | a step that takes a packet out completes that packet only, by its reply or as cancelled; any other completes nothing |
| `PipelineCompletions.CancelsLeaveOthers` | bus/pnp.c:1490-1502 | a cancellation leaves the other packets in their order |
| `Packets.RemovalCancelsEach` | bus/pnp.c:1049-1078 | what a removal completes is every packet of the disk, the current one first, each cancelled with count 0 and its own data |
| `PipelineProgress.NeverStuck` | umode/disksrv/disksrv.cpp:655-666 | with a packet pending on a disk whose removal has not ended, some step of the fetch thread, a worker or a removal under way is enabled |
| `PipelineProgress.ServiceLowers` | umode/disksrv/disksrv.cpp:273-340 | every step of the system, and every cancellation of a queued packet, lowers a measure over queued and in-flight packets |
| `PipelineProgress.ServiceRunsAreBounded` | umode/disksrv/disksrv.cpp:273-340 | without arrivals the system takes at most as many steps as the measure says, whichever it takes |
| `PipelineProgress.DrainIsExact` | umode/disksrv/disksrv.cpp:655-666 | every run without arrivals and new removals that exhausts the system has completed every packet if and only if every disk is sheltered |
| `PipelineProgress.QuiescentMeansDrained` | umode/disksrv/disksrv.cpp:655-666 | the half of this that promises: every disk sheltered, so everything is completed at the end |
| `PipelineProgress.Drains` | umode/disksrv/disksrv.cpp:655-666 | no loss is forced: from every reachable state some run completes every packet that is not stray already |
| `Driver.GetRequestIsExact` | bus/busenum.c:893-918 | GET_REQUEST in closed form: the head packet of the first waiting disk in list order becomes current and the new fetcher is completed with it, if and only if a disk waits; otherwise only the request queue changes and keeps its members |
| `Driver.IdleScan` | bus/busenum.c:711-715 | a scan without a waiting disk moves the head of the request queue to its tail once for every idle disk, and changes nothing else |
| `Driver.ReplyIsExact` | bus/busenum.c:724-835 | the verdict of a reply: no such device exactly for an empty list, invalid parameter exactly for an unknown handle, success otherwise; a refusal changes nothing, a success completes the current packet of the first disk with the handle as the reply says |
| `Driver.SingleScan` | bus/busenum.c:905-916 | a scan with one fetcher serves the first waiting disk and nothing else |
| `DriverRuns.Fifo` | bus/busenum.c:1044-1080 | in every run of whole routines packets start in arrival order, finish in that order, at most one in flight; direct dispatch overtakes nothing; the remove-lock count is one exactly while a packet is current |
| `DriverRuns.RequestsConserved` | bus/busenum.c:680-715 | each GET_REQUEST packet is parked, answered or cancelled as often as it was issued, and the k-th answer names the k-th packet that became current |
| `DriverRuns.StepKeeps` | bus/busenum.c:893-918 | every routine keeps arrival order, soundness, lock counts and the absence of idle work beside a parked fetcher |
| `DriverRuns.StepCompletes` | bus/busenum.c:785-829 | what each routine completes, packet by packet with status, count and data, and which complete nothing |
| `DriverRuns.ScanConserves` | bus/busenum.c:680-715 | a scan neither loses nor duplicates a fetcher |
| `BusEnum.SetupRequest` | bus/busenum.c:604-653 | decodes the command block into the request and stages a WRITE payload in the shared buffer, nothing else |
| `BusEnum.StartPacketOn` | bus/busenum.c:1033-1082 | new disk, request queue and answers as the value function says |
| `BusEnum.StartNextPacketOn` | bus/busenum.c:666-722 | new disk, request queue and answers as the value function says, put-back included |
| `BusEnum.StartPacketAt` | bus/busenum.c:1033-1082 | the same on the whole bus: other disks unchanged |
| `BusEnum.StartAll` | bus/busenum.c:907-916 | the loop over the disk list is the scan of module Driver |
| `BusEnum.GetRequestOn` | bus/busenum.c:893-918 | GET_REQUEST as a whole |
| `BusEnum.FinishAt` | bus/busenum.c:772-829 | the section of a reply: completion with status, count and data, CurrentIrp cleared, lock released |
| `BusEnum.FindDisk` | bus/busenum.c:750-761 | the scan returns the first disk with the handle, or none exists |
| `BusEnum.ProcessReply` | bus/busenum.c:724-835 | the verdict exactly as the list and the handle say, a refusal without effect, and otherwise the current packet of the disk completed by the reply and the next one started |
| `BusEnum.CancelQueue` | bus/pnp.c:1066-1078 | the drain loop ends and empties the queue, and every queued packet is completed once, in queue order, as cancelled with count 0 |
| `BusEnum.DestroyPdo` | bus/pnp.c:1049-1092 | completes the current packet and then the queue as cancelled with count 0, releases the lock, unmaps, and only then signals; no other disk changes |
| `CancelSafeQueue.RequestQueue.PeekNext` | bus/pnp.c:1409-1463 | returns the first packet from the given place on that passes the context, or none does |
| `CancelSafeQueue.RequestQueue.RemoveNext` | bus/pnp.c:1398-1407 | removes that packet and keeps the order of the rest |
| `CancelSafeQueue.RequestQueue.Cleanup` | bus/busenum.c:288-301 | removes exactly the parked packets of one file object, each cancelled once in queue order, and keeps the order of the others |
| `CancelSafeQueue.RemoveFirstOf` | bus/pnp.c:1409-1463 | removing the first match takes the head of the matching packets and keeps everyone else |
| `CancelSafeQueue.CleanupPartitions` | bus/busenum.c:288-301 | the cancelled and the kept packets make up the queue |
| `DiskService.DiskProcessor.ProcessRequest` | umode/disksrv/disksrv.cpp:350-354 | on the processor that FindDisk returned, the call is the pipeline's step Post followed by its step Signal |
| `DiskService.DiskProcessor.ServeRequest` | umode/disksrv/disksrv.cpp:298-336 | one round of the worker is the pipeline's step Exec, or ExecFail with what the failed call left, and its reply is the one the step Send puts under way; a failed seek keeps the byte count of an earlier round |
| `DiskService.DiskContainer.AddDisk` | umode/disksrv/disksrv.cpp:395-402 | inserts if and only if the id is free and changes nothing otherwise |
| `DiskService.DiskContainer.RemoveDisk` | umode/disksrv/disksrv.cpp:404-411 | deletes the processor under the id and erases the id: the deletion of the life-cycle machine, on the same map and processors |
| `DiskService.ReserveId` | umode/disksrv/disksrv.cpp:579-593 | the step Reserve of the life-cycle machine: the id is taken, or the processor deleted |
| `Pnp.QueryBusRelations` | bus/pnp.c:640-766 | all three outcomes; the report is the prior list followed by the present disks in list order, and exactly the omitted disks become reported missing in addition |
| `Pnp.CountPresent` | bus/pnp.c:685-692 | the counting loop counts what the filling loop will place |
| `Pnp.FillRelations` | bus/pnp.c:733-745 | every slot is written within the allocation, present disks in list order, exactly the absent ones marked |
| `Pnp.SelectIsExact` | bus/pnp.c:733-745 | an element is in the report if and only if it is listed and present |
| `Pnp.CancelUndoesQuery` | bus/busenum.h:391-396 | a cancelled stop or remove query restores the state before it |
| `Pnp.PnpKeepsPresence` | bus/buspdo.c:187-233 | only an eject clears Present, nothing sets it, no request changes ReportedMissing, and Deleted is entered only by a remove of a missing disk |
| `PnpRequests.StateFollows` | bus/buspdo.c:74-233 | after any requests and reports without nested queries the disk is in the state that the last request in force asks for, and remembers the one below it while it waits on a query |
| `PnpRequests.PresenceFollows` | bus/buspdo.c:314-314 | after any requests and reports, Present holds until the eject and ReportedMissing from the first report after it |
| `PnpRequests.NestingIsExact` | bus/busenum.h:391-396 | a query and then some cancels can lead the disk into a state that no request in force asks for if and only if another query is in force when it comes |
| `PnpRequests.NestedQueriesStick` | bus/buspdo.c:98-160 | the requests after which a started disk with both queries cancelled stays in StopPending |
| `PnpRequests.CancelWithoutQuery` | bus/buspdo.c:104-157 | a cancel without its query changes nothing |
| `Pnp.ChangeState` | bus/buspdo.c:69-329 | request by request, the state entered, the state remembered, and Claimed and Present |
| `Pnp.UnlinkDisk` | bus/buspdo.c:201-207 | the disk leaves the list and the count, the others keep their order |
| `Pnp.DispatchPnp` | bus/buspdo.c:174-233 | a remove destroys the disk if and only if it was reported missing, cancels its packets and signals; it sets the release event exactly if the list is then empty; otherwise the bus is unchanged |
| `Pnp.CleanupBus` | bus/busenum.c:288-311 | filters the request queue, and if disks are counted resets the release event, ejects all of them and must wait |
| `Pnp.RemoveAllDisks` | bus/pnp.c:1301-1331 | every listed disk is ejected and no other flag changes |
| `Pnp.RemoveDisk` | bus/pnp.c:1334-1384 | the verdicts and the one removal event that is reset |
| `Pnp.IsUnique` | bus/pnp.c:1208-1235 | true if and only if no listed disk clashes |
| `Pnp.LinkDisk` | bus/pnp.c:1169-1172 | appends the disk and counts it |
| `LifecycleSafety.LinkedHandlesAreUnique` | umode/disksrv/disksrv.cpp:579-600 | in every interleaving of AddDisk calls and removals the linked handles are pairwise different and each is a key of the map, held by the device's own processor |
| `LifecycleSafety.UniquenessCheckNeverRefuses` | bus/pnp.c:1208-1235 | the driver's check never refuses a call of the service: the map reservation already excludes duplicates |
| `LifecycleSafety.CheckIsExact` | bus/pnp.c:1208-1235 | on any state, the driver refuses exactly if a listed device not waiting for removal after a surprise has the id; a refused call gives its id back and deletes its processor |
| `LifecycleSafety.SignalAndBuffer` | bus/pnp.c:1091-1092 | the removal signal exists if and only if the device was unlinked, unmapped and signaled, is consumed once, and the buffer is freed only after it |
| `LifecycleSafety.EjectRequestIsHarmless` | bus/pnp.c:1363-1376 | resetting the removal event never clears a signal |
| `LifecycleSafety.PdoAccounting` | bus/pnp.c:1169-1172 | NumPDOs is the length of the list in every run |
| `LifecycleSafety.RemovalIsOrdered` | bus/buspdo.c:187-213 | a device is unlinked only after it stopped being present and a later report omitted it, and it has not been present since |
| `LifecycleSafety.StepFlags` | bus/pnp.c:733-745 | Present goes away exactly by an eject and never returns; ReportedMissing comes exactly by a report that omits the device and never goes away |
| `LifecycleSafety.StepKeeps` | bus/buspdo.c:174-233 | every step of the life cycle keeps the invariant |
| `LifecycleSafety.ReleaseIsExact` | bus/busenum.c:303-311 | the cleanup is released by removals if and only if at its reset a disk is linked or a removal has not yet looked at NumPDOs |
| `LifecycleSafety.ReleaseIsNotEarly` | bus/buspdo.c:211-212 | if the release event is set after a reset, then at some step since that reset no device was linked |
| `LifecycleSafety.CleanupWaitsForEmpty` | bus/busenum.c:303-311 | whenever the cleanup has returned, at some step of the run no device was linked |
| `LifecycleSafety.CountIsExact` | bus/busenum.c:303-311 | the count lets the cleanup return at once exactly if no device is linked |
| `LifecycleSafety.CleanerAdvances` | bus/busenum.c:303-311 | the reset clears the event, the ejection leaves no listed device present, and the wake-up returns |
| `LifecycleSafety.FinalRemovalIsExact` | umode/disksrv/disksrv.cpp:404-411 | the last step of a worker deletes its own processor, frees its id, and touches no other |
| `LifecycleSafety.ReleaseCanBeLost` | bus/busenum.c:303-311 | the run on which the last removal signals between the count and the reset, so the cleanup waits with nothing owed |
| `Blocks.DecodeInvertsEncode` | bus/busenum.c:624-631 | decoding inverts big-endian encoding for every 32-bit address and 16-bit count |
| `Blocks.EncodeInvertsDecode` | bus/busenum.c:624-631 | re-encoding restores all six significant bytes |
| `Blocks.LiteralCommandBlocks` | bus/busenum.c:624-631 | the byte order on literal command blocks |
| `Packets.LiteralOperations` | bus/busenum.c:642-645 | operation code 0x28 leaves the shared buffer alone at dispatch and the file when served, 0x2A stages the payload and leaves the buffer alone when served |
| `Packets.TransferLimit` | bus/busenum.c:642-645 | a packet fits the shared buffer exactly up to 512 blocks |
| `Blocks.SizeTestIsExact` | umode/disksrv/fileplugin.cpp:79-84 | the file-size test accepts exactly sizes below 2^41, which are exactly those whose block count survives the 32-bit cast |
| `Blocks.InRangeStaysInFile` | umode/disksrv/fileplugin.cpp:92-93 | in-range transfers have an unwrapped 32-bit length and stay inside the file |
| `Blocks.FileStorage.Init` | umode/disksrv/fileplugin.cpp:65-86 | succeeds exactly for an opened, sized, small enough file, with block size 512 and the full block count |
| `Blocks.FileStorage.ReadBlocks` | umode/disksrv/fileplugin.cpp:88-98 | byte by byte the file from the block address on, as many as asked for and left in the file, the rest of the buffer untouched; a failed seek changes nothing, a failed transfer leaves what the verdict says |
| `Blocks.FileStorage.WriteBlocks` | umode/disksrv/fileplugin.cpp:100-112 | byte by byte the buffer at the block address, the old file elsewhere, zeros in a gap; an empty write changes nothing; a failed seek changes nothing, a failed transfer leaves what the verdict says |
| `Blocks.ReadAtByte` | umode/disksrv/fileplugin.cpp:94-96 | wherever the extent lies, a read yields as many bytes as asked for and left after the offset, and these bytes |
| `Blocks.WriteAtByte` | umode/disksrv/fileplugin.cpp:109-109 | byte by byte: data inside the extent, old file outside, zeros in a gap |
| `Blocks.ReadBack` | umode/disksrv/fileplugin.cpp:96-109 | reading back what was written yields it |
| `Blocks.WriteFrame` | umode/disksrv/fileplugin.cpp:96-109 | a write leaves disjoint extents alone |

## Left out

- Cancellation of the packet in flight: `Bus_CancelIrp` completes it without clearing `CurrentIrp`, so exactly-once completion is stated without it.
- Remove-lock failures on a disk, and the release without an acquire on the deleted path of `Bus_Scsi`.
- Byte counts of failed storage calls; contents and counts are stated for successful calls, a failed call may leave the file and the buffer in any state.
- DiskService.DiskProcessor.ServeRequest: the tie to the step ExecFail is stated only when the byte count a failed call reports, possibly one kept from an earlier round, is within the transfer, because the pipeline premises that.
- READ CAPACITY and the drive geometry, which do not agree with the file.
- Surprise removal of the bus and removal of the bus, where the list and the counts are no longer kept.
- The fetch thread's shutdown through its termination event, and cleanup of the bus during I/O: `Pipeline` describes a running service, `Lifecycle` the cleanup.
- What happens after a processor is deleted between `FindDisk` and `SetEvent`, after a copy has left its buffers, and after a call or a walk enters the memory of a deleted device.
- The failing paths of memory mapping and device creation inside `Bus_AddDisk`, merged into one refusal.
- The outer loops of the fetch thread and the workers are steps of `Pipeline`; only one round of a worker is also a method.
- Sense data, claim and release, device ids, texts and capabilities, power, WMI.
- Device-interface look-up, RPC, service control, logging, plug-in loading, the VMware plug-in, the installer and the command-line tool.
- The size in bytes of a relations report: the model allocates one slot per entry.
