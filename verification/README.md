# The protocol core of helianthus-modbus, verified

A Dafny model of the parts of the Modbus runtime that keep state, with proofs of what every run of them keeps.

Each component has two layers. A value model describes one state of the component and, as functions, what each call
does to it. Properties are lemmas about those functions: first that every single step keeps an invariant, then, by
induction over a list of steps, what holds after every run. Beside it stands a class with the fields, loops and early
returns of the program, each method of which is proved to take the object from one state of the value model to the
next. Methods of the program hold a mutex, so one method is one step. Where the program walks over a map, the class
takes the keys in any order and the proof shows that the order does not matter. Clock readings, write results, jitter
and caller decisions are inputs of a step. Facts that the program forgets, such as which bytes were fed or when a
request was accepted, are kept in separate histories, or in fields marked as history that no decision looks at. All
lemmas are proved without automatic induction.

For each state machine one module tells the story of a single request, capability or attempt from the calls made and the
answers they gave: `SchedulerLives`, `CoalescingStories`, `OwnerStories`, `OwnerGraves`,
`OwnerSockets`, `RtuStories`, `RtuQuarantines`, `AcquisitionStories`, `AcquisitionAttempts`, `RetryStories`,
`RetryGates`. Every run is proved to follow these stories, and from them the decisions of each operation are given
exactly: when a call succeeds, when it is refused, and for which reason.

- **Endpoint scheduler.** `SchedulerModel`, `SchedulerLedger`, `SchedulerOrder`, `SchedulerInvariant`,
  `SchedulerSteps`, `SchedulerDispatch`, `SchedulerRuns`, `SchedulerLives`; the service rings are in `Ring.dfy`, sums over maps in
  `MapSum.dfy`, the class in `EndpointScheduler.dfy`. The invariant behind admission is a ledger: what all keys occupy,
  plus what each still misses of its protected share, plus one share for each free key position, fits into the queue.
- **Read coalescing.** `Pdu`, `CoalescingModel`, `Coalescing`, `CoalescingStories`, class in `CoalescedRead.dfy`. `SchedulerGroups` runs the
  scheduler and its groups together: a group that loses its entry fails in the same step, one that completes gives its
  entry up.
- **Transaction owner.** `OwnerModel`, `OwnerSafety`, `OwnerWalk`, `OwnerStories`, `OwnerGraves`, `OwnerSockets`,
  class in `ConnectionOwner.dfy`.
- **RTU line.** `Gf2` and `Crc` (the checksum as a linear register over GF(2), sections 2.5.1.2 and 6.2.2 of MODBUS
  over Serial Line V1.02), `RtuAdu`, `RtuDecoder` with its class, `RtuEndpointModel`, `RtuEndpointSafety`, `RtuStories`,
  `RtuQuarantines`, class in `RtuFixtureEndpoint.dfy`.
- **MBAP stream.** `TcpAdu`, class in `TcpDecoder.dfy` (section 3.1.3 of MODBUS Messaging on TCP/IP V1.0b).
- **Device Identification.** `DeviceIdModel`, `DeviceId`, `DeviceIdPages`, `DeviceIdLegal`, `DeviceIdAnomalies`,
  `DeviceIdTolerant`, methods and class in `DeviceIdDecoding.dfy` (section 6.21 of MODBUS Application Protocol V1.1b3).
- **Runtime acquisition.** `AcquisitionModel`, `Tombstones`, `Acquisition`, `Cancellation`, `AcquisitionStories`,
  `AcquisitionAttempts`, class in `RuntimeAcquisition.dfy`.
- **Retries and backoff.** `Backoff`, class in `ReconnectBackoff.dfy`, `RetryModel`, `RetrySafety`, `RetryTime`, `RetryStories`,
  `RetryGates`, class in `RetryEndpoint.dfy`.

Two promises turned out not to hold as one might expect, and the model keeps the code as it is:

- A protected key can be refused although its share is free: the limit of its own scope comes first.
  `ScopeLimitCanBlockAShare` gives a run, `ShareIsServed` the exact condition in every reachable state.
- `Close` of the RTU fixture endpoint is not final: calls that read the clock before they look at the state move a
  closed endpoint to recovery when the clock ran backwards. `ClosedCanReopen` gives a run, `ClosedStaysIff` the exact
  condition.

`dafny verify dfyconfig.toml` checks the whole project.

## Model

| member | source | states |
|---|---|---|
| SchedulerLedger.AdmissionIsExact | tcp_scheduler.go:303-427 | Under the ledger the admission test admits a request if and only if a key position is there and the ledger with the key and scope limits still holds afterwards; it never reports broken accounting. |
| SchedulerLedger.ReasonIsExact | tcp_scheduler.go:303-427 | A refusal names the first limit, in the order of the source, that the request would break: key positions, own queue, endpoint or scope, and last the shares reserved for others. |
| SchedulerLedger.ShareIsGuaranteed | tcp_scheduler.go:303-427 | A key that stays within its protected share is refused exactly when its own scope would pass its limit; no other scope can block it. |
| Rings.RemoveKeepsRotation | tcp_scheduler.go:1156-1214 | Removing an entry deletes it from the list and from the list read from its cursor, and moves nothing else, whatever the cursor. |
| Rings.RemoveNeverDelays | tcp_scheduler.go:1202-1214 | Removing an entry never puts another one further back in the service order. |
| SchedulerSteps.EnqueueKeeps | tcp_scheduler.go:163-238 | Enqueueing keeps the invariant, never meets broken accounting, and leaves a refused request without trace. |
| SchedulerSteps.ScheduleKeeps | tcp_scheduler.go:268-301 | Scheduling a group keeps the invariant, never meets broken accounting, and undoes everything on refusal. |
| SchedulerSteps.RetryKeeps | tcp_scheduler.go:805-891 | Requeueing or giving up a request on the wire keeps the invariant, adds no key and never meets broken accounting. |
| SchedulerSteps.CancelKeeps | tcp_scheduler.go:765-802 | Cancelling succeeds exactly for a queued entry, removes that entry and no other, and keeps the invariant. |
| SchedulerSteps.CompleteKeeps | tcp_scheduler.go:923-952 | Completing a request keeps the invariant and adds no key. |
| SchedulerSteps.FinishKeeps | tcp_scheduler.go:975-1038 | Finishing a group keeps the invariant and removes its coalesced entry. |
| SchedulerDispatch.ExpiryOrderIrrelevant | tcp_scheduler.go:671-702 | Whichever key the iteration visits first, expiry ends in the same state. |
| SchedulerDispatch.ExpireIsExact | tcp_scheduler.go:671-702 | Expiry removes exactly the overdue queued entries, leaves what is in flight, and keeps the invariant. |
| SchedulerDispatch.TurnIsReady | tcp_scheduler.go:710-762 | A turn is found exactly when some queue is not empty, and it names a key with queued work. |
| SchedulerDispatch.DispatchKeeps | tcp_scheduler.go:616-669 | Expiry, choosing, moving both cursors and launching the head together keep the invariant and add no key. |
| SchedulerRuns.StepKeeps | tcp_scheduler.go:163-1077 | Every operation of the scheduler keeps the ledger, the queue sums, the group index, the service order and the in-flight count. |
| SchedulerRuns.RunKeeps | tcp_scheduler.go:163-1077 | So does every run of operations, in any order and with any clock. |
| SchedulerRuns.ReservationsAlwaysFit | tcp_scheduler.go:185-238 | In every reachable state the limits are the given ones, and occupancy, unmet shares and the shares of free positions together are at most TotalQueued. |
| SchedulerRuns.ShareIsServed | tcp_scheduler.go:163-238 | After any run, a new request that leaves its key within the protected share is refused exactly when its scope would pass its own limit; whatever the other scopes hold, nothing else refuses it. |
| SchedulerRuns.GroupShareIsServed | tcp_scheduler.go:268-301 | The same for a group of reads scheduled as one. |
| SchedulerRuns.ScopeLimitCanBlockAShare | tcp_scheduler.go:361-374 | Counterexample to an unconditional share: three requests fill a scope, and a protected newcomer of that scope is refused while the endpoint has room. |
| SchedulerRuns.NothingLeftBehind | tcp_scheduler.go:1145-1200 | A state without entries and without charged dependents is the empty scheduler: no key, order entry or cursor is left. |
| SchedulerRuns.BoundedWaiting | tcp_scheduler.go:616-762 | While no scope or unit joins, fewer than (q + 1) times scopes times units requests are dispatched before a request at position q of its queue leaves it. |
| SchedulerLives.RetriesAreBounded | tcp_scheduler.go:805-891 | Counting the granted retries in the calls since its admission, a request is retried at most MaxRetryAttempts times; on the wire a retry is refused for that reason exactly when that many were granted, before that a coalesced read always goes back to its queue and a plain request exactly when it could be admitted anew; a refused one is forgotten. |
| SchedulerLives.LifeDecides | tcp_scheduler.go:163-952 | By the calls and answers so far alone: cancelling succeeds exactly for a queued request, completing exactly for one on the wire, retrying is out of order exactly otherwise, an identity is refused as duplicate exactly while it is present, and an invalid request always. |
| SchedulerLives.DispatchesIff | tcp_scheduler.go:616-669 | In every reachable state a request goes out exactly when fewer than MaxInFlight are on the wire and some queued request is in time, and the one that goes out was admitted, is queued and is in time. |
| SchedulerGroups.StepAgrees | tcp_scheduler.go:569-588 | After every step, the failing of groups whose entry it removed included, each key is charged exactly the live dependents of its groups, a completed group has no entry, and one that is not completed has one unless the caller ended it with Complete or FinishCoalesced. |
| SchedulerGroups.RunAgrees | tcp_scheduler.go:569-588 | The agreement of scheduler and groups holds after every run from an agreeing state. |
| SchedulerGroups.CountsAgree | tcp_scheduler.go:569-588 | After any run from the empty scheduler the dependents of a key equal the live dependents of its groups. |
| SchedulerGroups.EnteredUntilEnded | tcp_coalescing.go:1029-1086 | In every reachable state a group has live dependents exactly while it is not completed, its entry is there only then, and without an entry it lives on only when the caller ended that with Complete or FinishCoalesced. |
| SchedulerGroups.ViewsEndOnce | tcp_coalescing.go:298-305 | Over any joint run no group is lost or moves to another key, and each of its views keeps the end it has reached. |
| SchedulerGroups.TerminalIsEmpty | tcp_scheduler.go:975-1038 | After any run that leaves all groups completed and no plain entry the scheduler is empty under its own limits: nothing about the entries of groups is assumed. |
| SchedulerGroups.FinishedOnce | tcp_scheduler.go:975-1038 | Finishing a group, completed or not, removes its entry and no other, and finishing it again changes nothing. |
| EndpointScheduling.EndpointScheduler.constructor | tcp_scheduler.go:99-113 | A scheduler starts in the empty state of the model. |
| EndpointScheduling.EndpointScheduler.Tally | tcp_scheduler.go:337-360 | The checked loop over the keys adds up total and scope occupancy and cannot overflow. |
| EndpointScheduling.EndpointScheduler.Owed | tcp_scheduler.go:382-408 | The checked loop over the other keys adds up their unmet shares and cannot overflow. |
| EndpointScheduling.EndpointScheduler.CheckAdmissionCount | tcp_scheduler.go:303-427 | The tests and checked sums in the order of the source give the decision of the model; its accounting branches are dead. |
| EndpointScheduling.EndpointScheduler.RememberOrder | tcp_scheduler.go:590-613 | A new scope or unit is appended at the end of its list, cursors untouched. |
| EndpointScheduling.EndpointScheduler.ForgetOrder | tcp_scheduler.go:1156-1200 | A unit, and with its last unit a scope, leaves lists and cursors as the model removes it from the rings. |
| EndpointScheduling.EndpointScheduler.ReleaseIfEmpty | tcp_scheduler.go:1145-1154 | An idle key gives up its place and its order entries, a busy one keeps them. |
| EndpointScheduling.EndpointScheduler.EnqueueLocked | tcp_scheduler.go:185-238 | Duplicate test, admission, activation and queueing bring about the admission of the model. |
| EndpointScheduling.EndpointScheduler.Enqueue | tcp_scheduler.go:163-176 | An invalid request is refused; a valid one is admitted with weight one as in the model. |
| EndpointScheduling.EndpointScheduler.ScheduleCoalesced | tcp_scheduler.go:268-301 | Admission of the whole group, activation, the dependents limit and queueing bring about the scheduling of the model. |
| EndpointScheduling.EndpointScheduler.ReleaseCoalescedDependents | tcp_scheduler.go:569-588 | The count of a key falls by what its group released, and an idle key is released. |
| EndpointScheduling.EndpointScheduler.ForgetEntryLocked | tcp_scheduler.go:1051-1058 | An entry leaves the table together with its group index. |
| EndpointScheduling.EndpointScheduler.CancelQueued | tcp_scheduler.go:765-802 | A queued entry is cut out of its queue, its weight given back and its key released when idle; the group that lost its entry is named. |
| EndpointScheduling.EndpointScheduler.ReleaseInFlightLocked | tcp_scheduler.go:1060-1077 | The in-flight counts of key and endpoint fall by one. |
| EndpointScheduling.EndpointScheduler.Complete | tcp_scheduler.go:923-952 | A request on the wire is ended as in the model; any other is refused. |
| EndpointScheduling.EndpointScheduler.FinishCoalesced | tcp_scheduler.go:975-1038 | The entry of a group is ended wherever it stands, as in the model. |
| EndpointScheduling.EndpointScheduler.Retry | tcp_scheduler.go:805-891 | The retry limit, the admission test and the move to the tail of the queue are those of the model; a group that is given up is named. |
| EndpointScheduling.EndpointScheduler.ExpireQueue | tcp_scheduler.go:676-700 | One pass over a queue keeps exactly what is not due, adjusts its weight, and names each group that lost its entry once. |
| EndpointScheduling.EndpointScheduler.ExpireLocked | tcp_scheduler.go:671-702 | Expiring the keys in any order gives the expiry of the model and names each expired group once. |
| EndpointScheduling.EndpointScheduler.ScopeHasQueued | tcp_scheduler.go:727-739 | True exactly when some unit of the scope has queued work. |
| EndpointScheduling.EndpointScheduler.NextScope | tcp_scheduler.go:710-725 | The scan from the cursor finds the first ready scope in service order and steps past it, or leaves the cursor alone. |
| EndpointScheduling.EndpointScheduler.NextUnit | tcp_scheduler.go:741-762 | The scan from the cursor finds the first ready unit of the scope in service order and steps past it. |
| EndpointScheduling.EndpointScheduler.Dispatch | tcp_scheduler.go:616-669 | Expiry, capacity test, choice and launch give the dispatch of the model, with the groups that expired. |
| CoalescingModel.HullIsUnion | tcp_coalescing.go:229-262 | Ranges that pairwise overlap leave no hole: running minimum and maximum describe exactly their union. |
| Coalescing.NarrowingSucceeds | tcp_coalescing.go:707-749 | What is left after a cancellation is a valid read inside the old one that holds exactly the live ranges, with every slice in bounds: narrowing cannot fail. |
| Coalescing.SlicesFit | tcp_coalescing.go:917-940 | Every live slice lies inside a genuine reply: the slice error branch is unreachable. |
| Coalescing.StepKeeps | tcp_coalescing.go:509-1073 | Every step keeps the group invariant, releases each dependent it ends once, and revives none. |
| Coalescing.RunKeeps | tcp_coalescing.go:298-305 | Over any run views keep their identity, an ended one stays ended, and releases plus live dependents add up. |
| Coalescing.ViewsAreDirectReads | tcp_coalescing.go:855-974 | For any registers of all devices and tables, accepted intents and cancellations: when the device of the first intent answers the physical read, every live view gets what reading its own range from its own device and table gives. |
| Coalescing.CoalescesIff | tcp_coalescing.go:170-320 | Reads are merged exactly when they are valid, not too many, agree pairwise in device, table, scope, poll and deadline, name distinct views, share a register pairwise and span at most 125 registers. |
| Pdu.DataIff | pdu.go:184-270 | A reply decodes to these words exactly when it is function, byte count and the words high byte first, as many as were asked for. |
| Pdu.ExceptionIff | pdu.go:200-220 | A reply decodes to an exception exactly when it is the function with its high bit set and one code. |
| Coalescing.PhysicalIsUnion | tcp_coalescing.go:621-764 | Before the write the physical read has at most 125 words and covers a register exactly when a live view asks for it. |
| CoalescingStories.StoryDecides | tcp_coalescing.go:344-974 | By the calls and answers so far alone: a reservation is bound once before the write, the write begins once with a reservation and a view to serve, a view is cancelled exactly while it is served and the owner, where it is asked, agrees or is closing anyway, and a reply is taken exactly once after the write when it answers what was asked. |
| CoalescedReads.CoalesceReads | tcp_coalescing.go:170-296 | A group is made exactly when the intents may share a read, which `CoalescesIff` spells out, and then it is the one of the model. |
| CoalescedReads.CoalescedRead.ActiveDependentCount | tcp_coalescing.go:767-785 | The loop counts the live dependents. |
| CoalescedReads.CoalescedRead.BindReservation | tcp_coalescing.go:344-393 | A group that is neither completed, written nor bound becomes bound, and any other is refused; nothing else changes. |
| CoalescedReads.CoalescedRead.BeginWrite | tcp_coalescing.go:509-562 | The write begins, or is refused, as in the model. |
| CoalescedReads.CoalescedRead.FailTransport | tcp_coalescing.go:1029-1073 | Every live dependent fails once and the number released is the number that was live. |
| CoalescedReads.CoalescedRead.PhysicalWithoutLogical | tcp_coalescing.go:707-749 | The running minimum and maximum over the remaining dependents give the narrowed read, and the error returns are dead. |
| CoalescedReads.CoalescedRead.ApplyPhysical | tcp_coalescing.go:751-764 | The physical read is replaced and every slice offset is taken anew from it. |
| CoalescedReads.CoalescedRead.Cancel | tcp_coalescing.go:589-705 | Cancelling before or after the write changes group and dependents as in the model, and gives how many dependents it ended. |
| CoalescedReads.CoalescedRead.ReplaySuccessfulResponse | tcp_coalescing.go:855-974 | A reply is accepted exactly when it answers the physical read; each live dependent gets its slice once and the group completes. |
| OwnerSafety.StepKeeps | tcp_owner.go:405-1421 | Every operation keeps the owner invariant and never reopens a request that was closed. |
| OwnerSafety.RunKeeps | tcp_owner.go:405-1421 | The owner invariant holds after any run, and the counter of physical requests never falls. |
| OwnerSafety.StaysBounded | tcp_owner.go:405-489 | In every reachable state in-flight and early requests are within the given MaxInFlight, tombstones within theirs, the two disjoint, and no two requests share an identity. |
| OwnerSafety.DeliveryCloses | tcp_owner.go:1061-1168 | Data is delivered only for a request that is open on a live socket, and that closes it. |
| OwnerSafety.NoDeliveryOnceClosed | tcp_owner.go:1061-1168 | A request that was cancelled, abandoned, failed or answered, or whose socket is closed, gets no data in any later run. |
| OwnerSafety.DeliveredAtMostOnce | tcp_owner.go:1136-1168 | Over any run, generations included, each physical request gets at most one deliverable response. |
| OwnerSafety.CancelCloses | tcp_owner.go:507-522 | A successful cancellation closes exactly a request that was open. |
| OwnerSafety.AbandonCloses | tcp_owner.go:753-809 | An abandoned request was open before and is not afterwards. |
| OwnerSafety.FailuresExact | tcp_owner.go:811-864 | The reported siblings are exactly the requests in flight, each once, oldest first. |
| OwnerWalk.ReuseNeedsFullRound | tcp_owner.go:491-522 | After any run with any cancels and rewinds, an identifier of a fully transmitted request is issued again only after the counter walked all 65536 values. |
| OwnerWalk.WalkIsCounter | tcp_owner.go:886-890 | The walk counted by the history is the real allocator counter. |
| OwnerWalk.AllocationFailsIff | tcp_owner.go:491-504 | Allocation fails exactly when every identifier is in flight or tombstoned. |
| OwnerWalk.ReserveExhausts | tcp_owner.go:405-489 | Reserving reports exhaustion exactly then; the owner closes and the counter stands where it stood. |
| OwnerWalk.ExpiryFits | tcp_owner.go:652-719 | When the overdue requests fit among the tombstones, exactly those are buried, in order, and no other leaves the wire. |
| OwnerWalk.ExpiryOverflows | tcp_owner.go:652-719 | When they do not, as many as fit and one more are taken in order and the connection is given up. |
| OwnerStories.StoryDecides | tcp_owner.go:507-809 | By the calls and answers so far alone: a handle is good for cancelling, narrowing and starting the write exactly while its request is reserved, and for abandoning exactly between write and answer. |
| OwnerStories.ReportDecides | tcp_owner.go:583-650 | A write report is taken exactly once after the write began, also when the answer came first; it closes the socket exactly when the write is uncertain or contradicts an answer that is there. |
| OwnerStories.DeliversIff | tcp_owner.go:1061-1168 | Data is delivered for a physical request exactly when the frame came over its live socket after its write began, carries the transaction it was issued and the unit it was reserved for, and is byte for byte the data reply to the read last set for it. |
| OwnerStories.CorrelateIs | tcp_owner.go:1061-1134 | A frame ends a request only by its transaction, unit and function; any other leaves it waiting. |
| OwnerGraves.LateIff | tcp_owner.go:1095-1125 | An answer is reported late exactly for a request that was given up on this very socket, by its transaction, unit and function. |
| OwnerGraves.ExpiresIff | tcp_owner.go:652-719 | Only requests whose write was reported complete and whose deadline has passed expire, and all of them do unless there is no room to bury them. |
| OwnerGraves.ReservesIff | tcp_owner.go:405-489 | A request is issued exactly on an open connection, for a legal unit and read, with room in flight, a free identifier and a physical identity left. |
| OwnerSockets.SocketDecides | tcp_owner.go:1010-1421 | A transport is bound exactly while none is attached to an open owner that is not retired, a new generation starts exactly on a closed one and with empty books, and the n-th answer and the n-th diagnostic carry the number n. |
| ConnectionOwners.SortedHandles | tcp_owner.go:848-864 | Repeatedly taking the oldest request gives the failures of the model in order. |
| ConnectionOwners.TCPConnectionOwner.constructor | tcp_owner.go:286-316 | A new owner is the initial state of the model. |
| ConnectionOwners.TCPConnectionOwner.AllocateTransactionID | tcp_owner.go:491-504 | The loop over 65536 candidates finds the first free one and leaves the counter behind it, or back where it stood. |
| ConnectionOwners.TCPConnectionOwner.Reserve | tcp_owner.go:405-489 | Validation, bounds, exhaustion and registration of a reservation are those of the model. |
| ConnectionOwners.TCPConnectionOwner.RewindAllocator | tcp_owner.go:886-890 | The counter steps back only over the identifier issued last. |
| ConnectionOwners.TCPConnectionOwner.CancelBeforeWrite | tcp_owner.go:507-522 | A reserved request is removed and its identifier rewound as in the model. |
| ConnectionOwners.TCPConnectionOwner.ReplaceReservedRead | tcp_owner.go:524-552 | A reserved read is narrowed in place as in the model. |
| ConnectionOwners.TCPConnectionOwner.MarkWriteInvoked | tcp_owner.go:555-569 | A reserved request moves to the invoked phase as in the model. |
| ConnectionOwners.TCPConnectionOwner.RecordTransmit | tcp_owner.go:583-650 | Provable zero, full and partial writes and overtaken requests are recorded as in the model. |
| ConnectionOwners.TCPConnectionOwner.AbandonAfterWrite | tcp_owner.go:753-809 | A request after its write is buried, or the socket given up, as in the model. |
| ConnectionOwners.TCPConnectionOwner.AbandonExpired | tcp_owner.go:652-719 | The loop over overdue requests in deadline order abandons them as in the model. |
| ConnectionOwners.TCPConnectionOwner.FailAllExcept | tcp_owner.go:811-830 | All requests leave the wire and all but one are reported, oldest first. |
| ConnectionOwners.TCPConnectionOwner.NewDiagnosticFrame | tcp_owner.go:1274-1307 | A diagnostic identity is handed out until the counter is spent. |
| ConnectionOwners.TCPConnectionOwner.Correlate | tcp_owner.go:1061-1125 | A response is matched against in-flight, closing and buried requests in the order of the source, as in the model; `DeliversIff` states what that delivers. |
| ConnectionOwners.TCPConnectionOwner.AnswerActive | tcp_owner.go:1136-1168 | A response to a live request delivers, ends or closes as in the model. |
| ConnectionOwners.TCPConnectionOwner.BindTransport | tcp_owner.go:1010-1026 | A transport is bound once per generation as in the model. |
| ConnectionOwners.TCPConnectionOwner.LoseTransport | tcp_owner.go:1028-1046 | Losing the bound transport fails everything of the generation as in the model. |
| ConnectionOwners.TCPConnectionOwner.Close | tcp_owner.go:1329-1346 | Closing fails what is in flight and forgets the books of the socket as in the model. |
| ConnectionOwners.TCPConnectionOwner.Retire | tcp_owner.go:1348-1366 | Everything in flight fails, the books of the socket are forgotten and the owner is retired as in the model; `RetiredForGood` states what follows. |
| OwnerSafety.RetiredForGood | tcp_owner.go:1348-1366 | After a retirement, whatever runs follow: nothing is delivered or reserved, no transport is bound and no new generation starts. |
| ConnectionOwners.TCPConnectionOwner.Reconnect | tcp_owner.go:1397-1421 | A new generation starts with empty books as in the model. |
| ConnectionOwners.TCPConnectionOwner.DrainFailedReservations | tcp_owner.go:867-876 | The pending failures are handed over once. |
| Gf2.ShiftLinear | rtu_adu.go:240-246 | The register step is linear over GF(2). |
| Gf2.ShiftInvertible | rtu_adu.go:240-246 | The register step can be undone. |
| Gf2.ShiftKeepsParity | rtu_adu.go:240-246 | The register step keeps the parity of the register. |
| Crc.RtuCrc16 | rtu_adu.go:235-248 | The byte and bit loops compute the checksum of the model. |
| Crc.FeedIsSerial | rtu_adu.go:235-248 | Feeding bytes is feeding their bits one by one in wire order. |
| Crc.ResidueZeroIff | rtu_adu.go:197-248 | The register over data and low-byte-first trailer is zero exactly when the trailer is the checksum. |
| Crc.OddIsDetected | rtu_adu.go:235-248 | An odd number of flipped bits leaves a nonzero register. |
| Crc.BurstIsDetected | rtu_adu.go:235-248 | A nonzero pattern inside sixteen consecutive bits leaves a nonzero register. |
| RtuAdu.DecodeOfEncode | rtu_adu.go:96-233 | Every encoded frame decodes to its unit and PDU. |
| RtuAdu.EncodeOfDecode | rtu_adu.go:96-233 | A frame is accepted only if it is the encoding of what is read from it. |
| RtuAdu.OddFlipsRejected | rtu_adu.go:197-233 | Flipping an odd number of bits of a valid frame of any length, trailer included, makes decoding reject it. |
| RtuAdu.BurstRejected | rtu_adu.go:197-233 | So does any nonzero change inside sixteen consecutive bits in wire order. |
| RtuAdu.ValidIffResidueZero | rtu_adu.go:197-233 | A frame that passes the other tests is valid exactly when its residue is zero. |
| RtuDecoder.FramesAreQuietRuns | rtu_adu.go:280-386 | After any input a frame handed over is the unbroken tail of the bytes seen, with all gaps at most t1.5 and at least t3.5 of silence after it. |
| RtuDecoder.RejectionNeedsSilence | rtu_adu.go:280-356 | After a rejection a byte is accepted exactly when it comes at least t3.5 after the latest byte seen, even with backward timestamps. |
| RtuDecoder.RejectionPoisons | rtu_adu.go:280-356 | Every rejection except of a negative offset poisons the decoder. |
| RtuDecoder.RTUFrameDecoder.FeedByte | rtu_adu.go:280-356 | Buffer, timestamps and poison change as in the model. |
| RtuDecoder.RTUFrameDecoder.EndFrame | rtu_adu.go:359-386 | A frame ends, or is refused, as in the model. |
| RtuDecoder.RTUFrameDecoder.Reset | rtu_adu.go:388-402 | The decoder is empty and unpoisoned. |
| RtuEndpointSafety.StepKeeps | rtu_endpoint.go:339-1904 | Every operation keeps the invariant that ties phase, requests, deadlines and decoder to the history of the line. |
| RtuEndpointSafety.LineIsClean | rtu_endpoint.go:985-1000 | After any run a current request exists exactly while writing or awaiting, and the decoder is fresh whenever idle or writing. |
| RtuEndpointSafety.QuarantineEndsInTime | rtu_endpoint.go:1555-1683 | After any run a quarantined endpoint becomes idle in its generation only between anchor plus latency and anchor plus quiescence, t3.5 after the last accepted byte, within the discard bound. |
| RtuEndpointSafety.ResponsesAreFresh | rtu_endpoint.go:1192-1552 | Every byte of a delivered response was fed after the transmission of that same request completed. |
| RtuEndpointSafety.EventsAreContiguous | rtu_endpoint.go:1916-1967 | The events of any run are numbered 1, 2, 3 and so on without a gap. |
| RtuEndpointSafety.IdentitiesNeverRepeat | rtu_endpoint.go:339-521 | No pair of generation and request identity is issued twice in any run. |
| RtuEndpointSafety.ClosedStaysIff | rtu_endpoint.go:318-336 | Over any run a closed endpoint stays closed exactly when no call that reads the clock first sees it run backwards. |
| RtuEndpointSafety.ClosedCanReopen | rtu_endpoint.go:318-336 | Counterexample to closing for good: close, a tick with an earlier clock, recover, and the line is idle. |
| RtuEndpointSafety.WaitingStartsFresh | rtu_endpoint.go:524-686 | The wait for a response begins with an empty history of bytes and with the completion time of its own transmission. |
| RtuEndpointSafety.EmitIs | rtu_endpoint.go:313-316 | Under the capacity test that precedes it, emitting numbers events and does nothing else. |
| RtuStories.RespondsIff | rtu_endpoint.go:1192-1552 | A response is handed out exactly when a frame ends after the transmission was complete, before begin plus timeout, not cancelled, with unit and function of the plan, while no counter is used up; for a read its verdict is good exactly for the registers asked for under a right checksum. |
| RtuStories.LateIsDiscarded | rtu_endpoint.go:1236-1317 | A frame that ends at or after begin plus timeout, or cancelled, is never a response: the line is quarantined or needs recovery. |
| RtuStories.WaitsIff | rtu_endpoint.go:524-686 | Waiting begins exactly with a complete write reported in time by the holder of the request; a stranger changes nothing. |
| RtuStories.TicksOutIff | rtu_endpoint.go:689-857 | A tick ends the request exactly when its time is over, it is cancelled, or the clock ran backwards. |
| RtuStories.AbandonsIff | rtu_endpoint.go:860-924 | Giving up works exactly for the holder of a waiting request and changes nothing otherwise. |
| RtuStories.GuardEndsIff | rtu_endpoint.go:1555-1683 | After an answer the line is free again exactly when it was silent for t3.5 since the answer or any later byte. |
| RtuQuarantines.BeginsIff | rtu_endpoint.go:339-521 | A request is begun exactly on a free line, for a unit and a read the protocol allows, with a time that fits, while no counter is used up. |
| RtuQuarantines.QuarantinesIff | rtu_endpoint.go:689-1000 | A request whose time is over while it waits quarantines the line exactly when the bounds counted from the end of its transmission and from the last byte heard leave room for silence. |
| RtuQuarantines.InterruptsIff | rtu_endpoint.go:524-686 | A write that may have reached the line quarantines it, counted from when the whole request can have left it: eight characters for a read, seven for an identification, or the report itself. |
| RtuQuarantines.ReleasesIff | rtu_endpoint.go:1555-1683 | A quarantine ends well exactly when latency and t3.5 since the last byte are over, the quiescence bound is not, and no more frames than configured were thrown away, unended bytes counting as one. |
| RtuQuarantines.ExpiresIff | rtu_endpoint.go:1057-1166 | A tick or a byte ends a quarantine exactly after its anchor plus the quiescence bound. |
| RtuQuarantines.ThrowsIff | rtu_endpoint.go:1192-1365 | A frame that ends in quarantine is never a response, and one more than the configured number ends the quarantine. |
| RtuFixtureEndpoints.RTUFixtureEndpoint.constructor | rtu_endpoint.go:234-289 | A new endpoint is the initial state of the model and satisfies the line invariant with an empty history; every public method below keeps both. |
| RtuFixtureEndpoints.RTUFixtureEndpoint.ReadClock | rtu_endpoint.go:325-336 | A negative or earlier reading requires recovery; any other is remembered. |
| RtuFixtureEndpoints.RTUFixtureEndpoint.BeginRequest | rtu_endpoint.go:339-521 | A request begins as in the model, and then only on an idle line with an empty decoder and an identity not used before. |
| RtuFixtureEndpoints.RTUFixtureEndpoint.CompleteTransmit | rtu_endpoint.go:524-686 | The write result leads to waiting, guarding, quarantine or recovery as in the model; a wait begins with nothing fed. |
| RtuFixtureEndpoints.RTUFixtureEndpoint.Tick | rtu_endpoint.go:689-857 | Deadlines of write, wait and quarantine act as in the model. |
| RtuFixtureEndpoints.RTUFixtureEndpoint.Abandon | rtu_endpoint.go:860-924 | Giving up the current request leads to quarantine or recovery as in the model. |
| RtuFixtureEndpoints.RTUFixtureEndpoint.PrepareQuarantine | rtu_endpoint.go:933-983 | The checked deadlines of a quarantine are those of the model, and a request for which they do not fit is given up. |
| RtuFixtureEndpoints.RTUFixtureEndpoint.EnterQuarantine | rtu_endpoint.go:933-1000 | The quarantine deadlines are computed from the anchor and set together with the phase. |
| RtuFixtureEndpoints.RTUFixtureEndpoint.ExpireQuarantine | rtu_endpoint.go:1057-1087 | A quarantine past its quiescence bound ends in recovery. |
| RtuFixtureEndpoints.RTUFixtureEndpoint.FeedByte | rtu_endpoint.go:1090-1166 | A byte goes to the decoder, the quarantine or the guard as in the model. |
| RtuFixtureEndpoints.RTUFixtureEndpoint.ReceiveFrame | rtu_endpoint.go:1367-1552 | A frame is delivered, recorded as uncorrelated, or leads to recovery as in the model. |
| RtuFixtureEndpoints.RTUFixtureEndpoint.DiscardQuarantineFrame | rtu_endpoint.go:1319-1365 | A frame during quarantine is counted, and one too many ends in recovery. |
| RtuFixtureEndpoints.RTUFixtureEndpoint.EndFrame | rtu_endpoint.go:1192-1317 | The end of a frame is handled by phase as in the model; a response handed out answers the current request and is the tail of what was fed since its own transmission; `RespondsIff` states when. |
| RtuFixtureEndpoints.RTUFixtureEndpoint.TryResynchronize | rtu_endpoint.go:1555-1683 | The line becomes idle, stays quarantined or needs recovery as in the model; it becomes idle only inside the quarantine window, t3.5 after the last accepted byte and within the discard bound. |
| RtuFixtureEndpoints.RTUFixtureEndpoint.FailQuiescence | rtu_endpoint.go:1686-1719 | A quarantine that cannot end is turned into recovery. |
| RtuFixtureEndpoints.RTUFixtureEndpoint.Recover | rtu_endpoint.go:1722-1788 | A new generation starts with everything else reset, as in the model. |
| RtuFixtureEndpoints.RTUFixtureEndpoint.Close | rtu_endpoint.go:1842-1904 | The line is shut as in the model. |
| TcpAdu.ParseConserves | tcp_adu.go:217-283 | The units of a stream followed by the rest are the stream: nothing is lost or reordered. |
| TcpAdu.ParseAppend | tcp_adu.go:217-283 | More bytes continue where the parse stopped. |
| TcpAdu.ChunkingIrrelevant | tcp_adu.go:217-283 | Any split of a stream without framing error gives the same units and leftover as the whole; with one it fails in the same way. |
| TcpAdu.SplitsAgree | tcp_adu.go:217-283 | Two splits of the same stream agree in units, leftover and failure. |
| TcpAdu.DeliveredIsPrefix | tcp_adu.go:217-283 | Even with an error the delivered units are a prefix of those of the whole stream. |
| TcpAdu.TolerantConserves | tcp_adu.go:315-345 | In tolerant mode delivered bytes followed by the raw bytes of the error, or the buffer, are all bytes fed. |
| TcpAdu.EncodedStreamDecodes | tcp_adu.go:135-167 | Concatenated encoder output decodes to exactly the encoded units with nothing left over. |
| TcpAdu.EncodedReads | tcp_adu.go:135-167 | An encoded unit carries its own length, and reading it gives back transaction, unit and PDU. |
| TcpAdu.EncodesIff | tcp_adu.go:135-167 | What the encoder makes is exactly what strict framing takes for a unit with an address of at most 247. |
| TcpAdu.RefusedIff | tcp_adu.go:217-283 | A stream is refused exactly when, after whole units, a header follows whose protocol is not zero or whose length is outside 2..254, or 2..4097 in tolerant mode. |
| TcpAdu.DecodedIff | tcp_adu.go:217-283 | A stream decodes to these units with nothing left over exactly when it is their concatenation. |
| TcpAdu.OverflowsIff | tcp_adu.go:217-283 | A stream overflows exactly when, after whole units, a proper unit is announced that is longer than the buffer and more than the buffer holds has come. |
| TcpAdu.TruncatedIff | tcp_adu.go:286-302 | A stream that ends without error is reported as truncated exactly when it is not made of whole units; tolerant framing then gives the rest back. |
| TcpDecoder.TCPStreamDecoder.Feed | tcp_adu.go:217-283 | The loop that takes only what the next header or unit needs delivers what parsing buffer and fragment at once gives. |
| TcpDecoder.TCPStreamDecoder.FailFrame | tcp_adu.go:315-345 | The buffer is dropped; in tolerant mode the undelivered units, the buffer and the rest are given back in order. |
| TcpDecoder.TCPStreamDecoder.Finish | tcp_adu.go:286-302 | A leftover at the end is reported as truncated and the buffer is dropped. |
| DeviceId.StrictAdvances | device_id.go:139-167 | The next strict request is further on in the order of wrap flag and cursor, whatever a valid page says. |
| DeviceId.TolerantAdvances | device_id.go:1298-1334 | So is the next tolerant request, whatever a page says. |
| DeviceId.PagingEnds | device_id.go:538-702 | No chain of follow-up requests is longer than 512 pages, even without limits. |
| DeviceId.StandardNeverWraps | device_id.go:97-167 | However many strict or tolerant pages led to it, a request a caller can hold is valid or the zero value, and carries the wrap flag only as the continuation of an extended stream. |
| DeviceId.PageAgrees | device_id.go:978-1119 | A page that strict decoding accepts on a standard stream decodes tolerantly to the same objects without anomaly. |
| DeviceId.NextAgrees | device_id.go:1298-1334 | On a standard stream the tolerant follow-up request is the strict one. |
| DeviceId.TolerantExtendsStrict | device_id.go:1201-1296 | From any first request a caller can hold: when strict decoding and aggregation of a standard stream succeed, tolerant aggregation of the same bytes gives the same objects, complete and without anomaly. |
| DeviceIdPages.SegmentRoundTrip | device_id.go:193-343 | A valid page decodes from its own encoding. |
| DeviceIdPages.SegmentIsItsEncoding | device_id.go:193-343 | A page that decodes is the encoding of what it decodes to. |
| DeviceIdPages.StandardStreamRoundTrip | device_id.go:363-518 | Every legal standard object sequence, however cut into pages, decodes page by page and aggregates to itself under default limits. |
| DeviceIdPages.ExtendedStreamRoundTrip | device_id.go:363-702 | Every extended sequence of distinct identities that rises from any start, going around from 0xff to 0x00 at most once, does too. |
| DeviceIdPages.WalksIffLegal | device_id.go:604-702 | The progress test passes a stream of distinct identities exactly when they rise from the start, going around from 0xff to 0x00 at most once. |
| DeviceIdLegal.StandardIsLegal | device_id.go:363-518 | Whatever strict aggregation of a standard stream gives is legal: rising identities of the category asked for and conformed to, none reserved, the three basic ones among them. |
| DeviceIdLegal.ExtendedIsLegal | device_id.go:363-518 | Whatever strict aggregation of an extended stream gives has distinct identities that rise from its start and go around at most once. |
| DeviceIdLegal.AggregateIs | device_id.go:363-518 | An aggregate is the objects, in order, of a complete chain of valid pages of one conformity, each answering the request its predecessor leads to, within all limits. |
| DeviceIdAnomalies.AnomaliesAreExact | device_id.go:978-1119 | A page decodes tolerantly exactly by its length, function and type, and each anomaly is noted exactly when the page shows it, as spelled out on the bytes and objects. |
| DeviceIdTolerant.TolerantIs | device_id.go:1138-1296 | What a tolerant traversal publishes: its pages answer one another from the first request on, its objects are the first occurrences of all they hold, in order, up to the first that breaks a limit, and it is complete exactly when none did and the last page has nothing to follow. |
| DeviceId.NextPageIff | device_id.go:1298-1334 | A tolerant page leads on exactly when it is no individual access, more follows, and its cursor lies above the one asked for, or below it once on an extended stream; the request it leads to is given. |
| DeviceIdDecoding.ReadObjects | device_id.go:288-330 | The cursor loop reads exactly the announced objects, or fails where the model fails. |
| DeviceIdDecoding.CheckStandard | device_id.go:566-600 | The loop over order, size and category gives the standard validity of the model. |
| DeviceIdDecoding.CheckExtended | device_id.go:604-688 | The loop over identities gives the extended progress of the model. |
| DeviceIdDecoding.CheckSegment | device_id.go:538-602 | The tests of a page in the order of the source accept exactly the valid pages. |
| DeviceIdDecoding.DecodeDeviceIDSegment | device_id.go:193-343 | Header tests, object loop and page tests together give the strict decoding of the model. |
| DeviceIdDecoding.NextDeviceIDRequest | device_id.go:139-167 | A page is tested again and leads to the next request of the model. |
| DeviceIdDecoding.TakeObjects | device_id.go:434-475 | The loop over one page with its seen set takes the objects of the model within the limits. |
| DeviceIdDecoding.AggregateDeviceID | device_id.go:363-518 | The loop over the pages gives the aggregate of the model. |
| DeviceIdDecoding.ReadPage | device_id.go:978-1119 | The tolerant cursor loop gives the page of the model with its anomalies in order. |
| DeviceIdDecoding.DeviceIDTolerantTraversal.CollectObjects | device_id.go:1227-1244 | New objects are collected, repeated ones and exceeded limits noted, as in the model. |
| DeviceIdDecoding.DeviceIDTolerantTraversal.AddPage | device_id.go:1201-1262 | A page is added, or refused, as in the model. |
| DeviceIdDecoding.DeviceIDTolerantTraversal.Close | device_id.go:1264-1276 | The traversal ends, complete or not, as in the model. |
| Acquisition.StartInv | runtime_acquisition.go:246-270 | A source built from valid limits and a valid restart state satisfies the invariant. |
| Acquisition.StepKeeps | runtime_acquisition.go:396-934 | Every operation keeps the invariant, takes no number back and changes no outcome. |
| Acquisition.RunKeeps | runtime_acquisition.go:396-934 | Over any run the invariant holds, reserved numbers stay reserved and an outcome never changes. |
| Acquisition.ClaimedAtMostOnce | runtime_acquisition.go:669-699 | In any run at most one claim of a capability wins, through however many copies. |
| Acquisition.ClosedIsExact | runtime_acquisition.go:578-637 | In every reachable state a closed attempt consists of the capabilities issued for its ordinals from zero up, and nothing else is registered. |
| Acquisition.ReservedOnce | runtime_acquisition.go:560-575 | In every reachable state the reserved numbers are an interval, each live or ended and not both. |
| Acquisition.RecordIsLatest | runtime_acquisition.go:806-828 | In every reachable state the tombstones are strictly sorted and are the greatest of all restored and ended numbers, as many as the limit allows. |
| Acquisition.ExpiryExact | runtime_acquisition.go:776-804 | Expiry ends, having expired exactly the due capabilities in ascending sequence order. |
| Acquisition.ExportIsValid | runtime_acquisition.go:898-934 | Whatever is exported passes restart validation under the same limits and carries the counter on. |
| Acquisition.ChainNeverReuses | runtime_acquisition.go:898-934 | Across any chain of runs, exports and restores no sequence number is used twice. |
| AcquisitionStories.ClaimIsExact | runtime_acquisition.go:652-699 | By the calls and answers so far alone: a claim wins exactly when the capability was issued for this attempt, has not ended, its attempt was closed, and the clock is before issue time plus lifetime; at or after that the same claim ends it as expired. |
| AcquisitionStories.EndIsExact | runtime_acquisition.go:748-804 | Failing reports the end that was reached or fails a live capability; expiry takes exactly the live ones whose lifetime since issue is over. |
| AcquisitionAttempts.IssueIsExact | runtime_acquisition.go:424-506 | A capability is issued exactly for a view never offered before, to an attempt under way, for an unused ordinal in range, while there is room and issue time plus lifetime can be represented. |
| AcquisitionAttempts.CloseIsExact | runtime_acquisition.go:578-637 | An attempt is closed exactly once, with exactly the capabilities issued to it, in the order of the ordinals and under its own key. |
| Tombstones.RecordKeeps | runtime_acquisition.go:806-828 | Inserting in order and dropping the first keeps exactly the greatest numbers. |
| Tombstones.RetainedUnique | runtime_acquisition.go:806-828 | What is retained is determined by what ended. |
| Cancellation.CancelOrderIrrelevant | runtime_acquisition.go:639-647 | Cancelling the members of an attempt in any order ends in the same state. |
| RuntimeAcquisitions.ValidateRestart | runtime_acquisition.go:333-362 | The loop against the predecessor accepts exactly the valid restart states. |
| RuntimeAcquisitions.RuntimeAcquisitionSource.constructor | runtime_acquisition.go:246-270 | A source starts in the state its restart record describes, or without one in the first state. |
| RuntimeAcquisitions.RuntimeAcquisitionSource.Search | runtime_acquisition.go:817-819 | The binary search finds the place of a number in the sorted record. |
| RuntimeAcquisitions.RuntimeAcquisitionSource.TerminalizeLocked | runtime_acquisition.go:806-828 | A capability gets its outcome, leaves the live table and enters the record in order, dropping the first when full. |
| RuntimeAcquisitions.RuntimeAcquisitionSource.ReclaimIfTerminal | runtime_acquisition.go:830-843 | A closed attempt is set aside exactly when all its members have ended. |
| RuntimeAcquisitions.RuntimeAcquisitionSource.BeginAttempt | runtime_acquisition.go:396-421 | An attempt begins, or is refused, as in the model. |
| RuntimeAcquisitions.RuntimeAcquisitionSource.ReserveSequence | runtime_acquisition.go:560-575 | The next number is reserved; after the greatest the counter is exhausted. |
| RuntimeAcquisitions.RuntimeAcquisitionSource.Issue | runtime_acquisition.go:424-506 | A capability is issued, or the view is used up in vain, as in the model. |
| RuntimeAcquisitions.RuntimeAcquisitionSource.MembershipIsExact | runtime_acquisition.go:611-637 | The loop with its seen set accepts exactly the registered members in order; its duplicate branch is dead. |
| RuntimeAcquisitions.RuntimeAcquisitionSource.CancelEach | runtime_acquisition.go:639-647 | Cancelling in any order gives the cancellation of the model. |
| RuntimeAcquisitions.RuntimeAcquisitionSource.Close | runtime_acquisition.go:578-609 | The attempt is frozen with exactly its members, or cancelled and removed, as in the model. |
| RuntimeAcquisitions.RuntimeAcquisitionSource.Contains | runtime_acquisition.go:701-711 | The loop finds exactly the members. |
| RuntimeAcquisitions.RuntimeAcquisitionSource.Claim | runtime_acquisition.go:669-699 | A claim wins, observes an outcome, expires or is refused as in the model; `ClaimIsExact` states when. |
| RuntimeAcquisitions.RuntimeAcquisitionSource.CancelOpen | runtime_acquisition.go:714-745 | A closed attempt is cancelled and removed, a drained one forgotten, as in the model. |
| RuntimeAcquisitions.RuntimeAcquisitionSource.FailOpen | runtime_acquisition.go:748-773 | A live capability fails once; an ended one keeps its outcome. |
| RuntimeAcquisitions.RuntimeAcquisitionSource.EarliestDue | runtime_acquisition.go:784-796 | One walk in any order finds the due capability with the least number. |
| RuntimeAcquisitions.RuntimeAcquisitionSource.ExpireOpen | runtime_acquisition.go:776-804 | Repeating that walk expires as in the model and counts what it expired. |
| RuntimeAcquisitions.RuntimeAcquisitionSource.ExportRestartState | runtime_acquisition.go:898-934 | Empty attempts are dropped; a source without authority is exported once and retired. |
| Backoff.BaseClosed | tcp_scheduler.go:1313-1324 | The stepwise doubling in closed form: the ceiling once half of it, rounded down, was reached one attempt earlier, otherwise true doubling. |
| Backoff.BaseBounds | tcp_scheduler.go:1313-1324 | The base is at least the smaller of true doubling and the ceiling, and leaves doubling only for the ceiling. |
| Backoff.BaseGrows | tcp_scheduler.go:1313-1324 | The base never falls from one attempt to a later one. |
| Backoff.DelayFits | tcp_scheduler.go:1288-1373 | A delay lies between its base and the ceiling and below the remaining time; attempts and recorded jitters stay bounded. |
| Backoff.DelaysIff | tcp_scheduler.go:1288-1373 | By true doubling: a delay, base plus jitter cut to the ceiling, is granted exactly while attempts are left, it ends before the remaining time, and no response overtook it; every other answer and state is given too. |
| ReconnectBackoffs.ReconnectBackoff.BaseDelay | tcp_scheduler.go:1313-1324 | The doubling loop, left early at the ceiling, computes the base of the attempt. |
| ReconnectBackoffs.ReconnectBackoff.NextDelayBefore | tcp_scheduler.go:1288-1373 | Attempt limit, deadline tests, clamped jitter, overtaken attempt and bounded record are those of the model. |
| ReconnectBackoffs.ReconnectBackoff.ValidCorrelatedResponse | tcp_scheduler.go:1379-1386 | The progression starts over and the record stays. |
| RetrySafety.StepKeeps | tcp_endpoint_retry.go:11-1182 | Every operation keeps the invariant; deadlines stay, and debts, charges and retries only grow. |
| RetrySafety.RunKeeps | tcp_endpoint_retry.go:11-1182 | The same over any run, with any clock. |
| RetrySafety.WaitIsPaid | tcp_endpoint_retry.go:1038-1110 | A request whose wait is satisfied sees a time, clock plus debt, that has moved exactly to the later of return and end of delay, and still lies before its deadline. |
| RetrySafety.WaitServesIff | tcp_endpoint_retry.go:904-1110 | A waiting request is served exactly when its deadline had not passed on return: the drawn delay always fitted. |
| RetrySafety.MemoryIsBounded | tcp_endpoint_retry.go:77-140 | In every reachable state retained requests are within MaxInFlightRequests, hold all that may be tried again, retries are bounded and at most one request waits. |
| RetrySafety.OwingIsNeverEvicted | tcp_endpoint_retry.go:97-131 | Retaining a request never drops another one that still owes a wait. |
| RetrySafety.DeadlineNeverGrows | tcp_endpoint_retry.go:891-901 | Through any run the effective deadline of a request stays valid and never moves back. |
| RetryTime.ChargesFitWindow | tcp_endpoint_retry.go:1124-1182 | With a clock that does not run backwards, the delays charged to any request, accepted before or during a wait, sum to less than the time it was accepted with. |
| RetryTime.GateOpensIff | tcp_endpoint_retry.go:904-1182 | Behind a shut gate a step lets a connection open exactly when it ends the pending wait and the endpoint is not closed; any other leaves the gate shut. |
| RetryTime.GateStaysShut | tcp_endpoint_retry.go:904-1182 | After a lost connection a new one can be opened, over any run, only if some wait has really ended since. |
| RetryStories.RetryIsExact | tcp_endpoint_retry.go:619-713 | With deadline, tries and shortfalls taken from the calls so far: a failed request is tried again exactly when it does not wait, has tries left, has paid the wait it owes, and clock plus shortfalls are before the deadline it was accepted with; otherwise the verdict names the reason. |
| RetryStories.WaitIsExact | tcp_endpoint_retry.go:904-1015 | A wait begins exactly for a request that owes one, behind a shut gate, with no other wait under way, in time, and when the backoff grants a delay. |
| RetryStories.FailShutsIff | tcp_endpoint_retry.go:55-75 | A failure shuts the reconnect gate exactly when the request may be tried again and has to wait first. |
| RetryStories.TrackIsExact | tcp_endpoint_retry.go:77-176 | Tracking one request ends another exactly when that one is overdue, or owes no wait and gives way to one that does; nothing else about it changes. |
| RetryGates.CourseDecides | tcp_endpoint_lifecycle.go:185-464 | By the calls and answers so far alone: a connection may be opened exactly when the endpoint is not closed and a lost connection was waited for; a new request is accepted exactly when it is not closed and in time; which request is under way; a closed endpoint has none. |
| RetryGates.CancelIs | tcp_endpoint_retry.go:262-324 | Dropping changes a request exactly while it may be tried again, and it stays remembered only while it owes a wait. |
| RetryGates.EndRetryIs | tcp_endpoint_retry.go:801-889 | A retry succeeds exactly when it was scheduled; otherwise the request may be tried again exactly when its time is over at neither look at the clock. |
| RetryEndpoints.TCPEndpoint.constructor | tcp_endpoint_lifecycle.go:12-66 | A new endpoint has nothing to retry and an unspent backoff. |
| RetryEndpoints.TCPEndpoint.PruneRetryable | tcp_endpoint_retry.go:142-176 | Overdue requests end and those with nothing left are dropped, in any order. |
| RetryEndpoints.TCPEndpoint.OldestEvictable | tcp_endpoint_retry.go:104-112 | The walk finds the request with the least identity that owes no wait. |
| RetryEndpoints.TCPEndpoint.TrackRetryableState | tcp_endpoint_retry.go:77-140 | A request is retained, evicts one that owes no wait, or ends, as in the model. |
| RetryEndpoints.TCPEndpoint.SetRequestRetryState | tcp_endpoint_retry.go:55-75 | A failed request becomes retryable or terminal and the reconnect gate is shut when it owes a wait. |
| RetryEndpoints.TCPEndpoint.TerminalizeRetryable | tcp_endpoint_retry.go:178-195 | A request ends, and is remembered only while it owes a wait. |
| RetryEndpoints.TCPEndpoint.CancelRetained | tcp_endpoint_retry.go:262-324 | A retained request is dropped, or loses one of its reads, as in the model. |
| RetryEndpoints.TCPEndpoint.BeginRetry | tcp_endpoint_retry.go:619-713 | The tests of lifecycle, wait, retry limit and effective deadline decide as in the model. |
| RetryEndpoints.TCPEndpoint.EndRetry | tcp_endpoint_retry.go:801-868 | A scheduled request that is still owned becomes active with one retry more; any other is restored. |
| RetryEndpoints.TCPEndpoint.RestoreRetryLifecycle | tcp_endpoint_retry.go:870-889 | A request whose retry failed is retryable again, or ends when overdue. |
| RetryEndpoints.TCPEndpoint.BeginWait | tcp_endpoint_retry.go:904-1015 | Up to the timer: lifecycle, gate, deadline and drawn delay as in the model. |
| RetryEndpoints.TCPEndpoint.ClearWaiting | tcp_endpoint_retry.go:967-974 | The wait is forgotten and may be begun again. |
| RetryEndpoints.TCPEndpoint.EndWait | tcp_endpoint_retry.go:1038-1110 | From the return of the timer: clock test, shortfall and completion as in the model. |
| RetryEndpoints.TCPEndpoint.CompleteReconnectBackoff | tcp_endpoint_retry.go:1124-1182 | Every retained request that owes a wait is charged the shortfall or ends, in any order, and the gate opens. |
| RetryEndpoints.TCPEndpoint.OpenConnection | tcp_endpoint_lifecycle.go:185-275 | A connection opens only when no wait is owed, and lowers the gate. |
| RetryEndpoints.TCPEndpoint.Close | tcp_endpoint_lifecycle.go:383-464 | Closing ends every request and retains none. |

## Left out

- `attachDependent` and `detachDependent` of the scheduler: no product code calls them, and they bypass admission.
- Entry sequence numbers, coalesced lookups and metadata snapshots of the scheduler: they only report.
- Sockets, timers, context cancellation and the orchestration around the cores (`tcp_transport.go`, `tcp_pool.go`, the
  other `tcp_endpoint*.go` files): their results enter as step inputs.
- Interleavings inside one method between two lock regions, other than those of a reconnect wait, a retry and a jitter
  draw, which are modelled as separate steps or inputs.
- `rtu_serial*.go`, `rtu_production*.go`, `rtu_session.go`, `private_function.go`: operating-system calls and callers
  that repeat the ideas of the fixture endpoint in an easier form.
- `runtime_normalization.go` and every JSON size test, among them the encoded size of a tombstone: encoding/json is not
  part of this model.
- Pointer identity: tokens, groups, attempts and connections are numbers, fresh where the program allocates.
- Error texts, deep copies, marshalling refusals, event contents, sink panics and re-entry; of events only their
  numbering is modelled.
- Whether a wire response belongs to the physical request byte by byte: the coalesced group takes it as a flag.
- The verdict of Device ID decoding inside the transaction owner and the RTU endpoint: it is an input there, and modelled
  on its own in the Device ID component.
- `releasePoolSlot` of the owner: it touches only the pool.
- RuntimeAcquisitions.RuntimeAcquisitionSource.Issue: whether a view and a normalization record belong to the source and
  match each other is an input, because it compares fields that are not modelled.
- RuntimeAcquisitions.RuntimeAcquisitionSource.BeginAttempt: whether a key is non-empty, short enough and well-formed
  UTF-8 is an input.
- RetryEndpoints.TCPEndpoint.EndRetry: building the intents and scheduling them is an input that says whether it worked.
- RetryEndpoints.TCPEndpoint.BeginWait: the event written before the timer starts is not modelled.
- RetryEndpoints.TCPEndpoint.CancelRetained: which read is dropped and whether it was the last is an input, because the
  reads of a request are kept by its coalesced group.
- RetryEndpoints.TCPEndpoint.OpenConnection: the claim of the remote, the pool and a failing transport are not modelled.
- CoalescedReads.CoalescedRead.BindReservation: whether reservation, endpoint, generation, unit and read are the ones of
  the group is not tested.
- CoalescedReads.CoalescedRead.BeginWrite: the refusals of transport, dispatch and owner are not modelled here; dispatch
  is a condition of the joint step in `SchedulerGroups`.
- CoalescedReads.CoalescedRead.FailTransport: does not cancel the reservation of the owner before a write.
- CoalescedReads.CoalescedRead.Cancel: the transition asked of the owner is not returned; its answer is an input.
- CoalescedReads.CoalescedRead.ReplaySuccessfulResponse: whether the response belongs to the reservation is a flag.
- ConnectionOwners.TCPConnectionOwner.AnswerActive: the verdict of Device ID decoding is an input.
- ConnectionOwners.TCPConnectionOwner.LoseTransport: the call is taken to come from the bound transport.
- RtuFixtureEndpoints.RTUFixtureEndpoint.ReceiveFrame: the verdict of Device ID decoding is an input.
- RtuFixtureEndpoints.RTUFixtureEndpoint.Close: does not release the owner of the fixture line.
- RuntimeAcquisitions.ValidateRestart: does not test the schema version or the encoded size.
- EndpointScheduling.EndpointScheduler.ScheduleCoalesced: takes a group that was built by the coalescing step, so its
  number of reads is within the limit that step enforces.
