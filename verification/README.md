# Neproto: continuity, admission, cover and cluster routing

This project models the parts of the Neproto server that keep promises over
whole runs, and proves those promises.  `dafny verify dfyconfig.toml` checks
all of it.

## What is modelled

**The resumable stream** (`Journal.dfy`, `StreamRegions.dfy`, `Stream.dfy`,
`Delivery.dfy`, `DeliveryProofs.dfy`, `DeliveryTheorems.dfy`,
`MigrationTheorems.dfy`, `HalfCloseTheorems.dfy`).  A logical byte stream
survives its physical streams.  The replay journal is a class over a ring of
bytes that refines a bounded sequence.  Each critical section of the stream is
a function on an `Endpoint`; the methods of `ResumableStream` are proved
against those functions, and `Delivery` interleaves the same functions with a
peer that reads, with failing channels, detaches, replacements and
half-closes.  A physical write reports what it accepted, and both peers of a
replacement agree on its start, as `ResumeState` demands.

**Admission** (`Tickets.dfy`, `Controller.dfy`, `ControllerObject.dfy`,
`Hub.dfy`, `HubProofs.dfy`, `HubTheorems.dfy`, `HubObject.dfy`, `Control.dfy`,
`ControlProofs.dfy`).  Single-use rotating tickets, the lease controller, the
hub that ties the two together with pending, committed and undone admissions,
and any number of clients exchanging messages with it under one monotone clock.

**Flows and scheduling** (`Flow.dfy`, `Scheduler.dfy`).  The flow registry with
per-principal quotas and epochs; the scheduler with its hysteresis and its
64-bit scores.

**Cover traffic** (`CoverProfiles.dfy`, `Mosaic.dfy`, `Engine.dfy`).  The budget
of padding and dummies, the traffic classifier in 64-bit arithmetic, and the
profile tables the engine relies on.

**The cluster** (`ClusterModel.dfy`, `Relay.dfy`, `Routes.dfy`,
`ClusterAdmin.dfy`).  Validation of the shared state, relaying from node to
node, the resolution of routes, and the administrator's changes.

Conventions: identifiers, tickets, principals and keys are numbers with zero
for none, except cluster identifiers, which are strings; time is a number of
nanoseconds; random draws, physical answers and geographic matches are
parameters.  Each region under a lock is one step.  `protocol.MaxSequence` is
2^62 - 1 (`internal/protocol/cell.go:17`).

## What does not hold, and exactly when it does

Where the code misses a property the code is kept, a lemma gives inputs on
which it fails, and another says when it holds.

- *Replay past the snapshot.*  `Replace` (`internal/continuity/stream.go:375-389`)
  fixes the end of the replay but reads each chunk from the live journal.  If a
  write appends while a partial chunk is left, that chunk picks up bytes that
  are sent again later.  `ExactlyOnceDelivery` holds for replacements of any
  length as long as whatever is appended during a replay finds whole copy
  buffers left; nothing appended, or a replay of at most 32768 bytes or a
  multiple of that, always qualifies (`WholeChunksAreClean`).  Any other append,
  while the candidate can still be installed and the offsets stay within the
  sequence space, can be continued to a run that delivers bytes twice
  (`UncleanAppendBreaksDelivery`), and one exists from the start
  (`DuplicateIsReachable`).
- *The migration barrier.*  A replay that fails may already have given its
  candidate bytes beyond `transmitted`.  As long as no replacement fails that has
  unsent bytes in its snapshot, every quiesced sender admits its peer's true
  offset, however writes were cut short (`PeerOffsetCovered`); a caller who
  replaces only when everything has been transmitted is always safe
  (`DrainedIsSafe`).  A replacement begun with bytes unsent, at the peer's offset
  and with no write in flight, can fail and leave the peer stranded
  (`UndrainedReplaceStrandsPeer`), with a single byte and from the start
  (`PeerCanBeStranded`).
- *Half-close.*  The half-close at the end of `Replace` may overtake a write that
  was appended after the snapshot and then given up.  Over every run in which
  each write that returns was transmitted, a half-closed channel has carried
  every byte (`HalfCloseFollowsEveryByte`).  A half-close requested while a
  replay is behind the journal can break the order (`CarelessCloseBreaksOrder`),
  and from the start it can (`FinCanOvertake`).
- *Taking a create back too late.*  If the ticket of a create is redeemed while
  the create is still pending and the create is then taken back, the successor
  is left without a record (`PresentedWhilePending`, `RedeemedCreateOrphans`), in
  every hub with room for it (`OrphanIsReachable`).  As long as no create is taken
  back beside another ticket or lease of its constellation, every reachable hub
  is in order, whatever tickets are presented when (`TicketsOfReachableHub`).
  Runs that present no ticket of a pending create qualify (`CarefulIsLegal`), and
  so do all runs of the protocol, in which a client may act on an answer before
  the server has committed it (`ExchangeIsStep`).
- *Taking an attach back late.*  The old ticket comes back exactly when it has
  not expired meanwhile (`UndeliveredAttachRestores`).
- *A lost answer.*  A client that never receives a committed answer cannot use
  its old ticket again (`LostAnswerLocksOut`); agreement holds otherwise
  (`TicketAgreement`).
- *Lease identifiers.*  Admission keeps the controller's invariant exactly when
  the identifier it takes is free, which the 64-bit counter guarantees for every
  run of less than 2^64 - 2 steps (`AddKeepsInv`, `UnwrappedRun`).
- *Round robin.*  The tie cursor is a 64-bit number.  The next selections serve
  every lease tied at the least load exactly when the cursor does not wrap
  meanwhile, or wraps at a multiple of the number of ties (`SelectionIsFair`);
  three ties at the end of the word are served unfairly (`WrapPassesOver`).
- *The zero instant.*  The classifier uses the zero time for "unset".  A window
  that reaches across that instant is lost track of, its length makes a product
  wrap, and whatever is in it is taken for a stream (`CrossingMisclassifies`,
  `ZeroInstantMisclassifies`).  `WindowStaysOk` is the exact condition, and every
  run of readings that meets it is classified exactly (`ClassificationIsExact`).
- *Chains through the master.*  A chain of three nodes is valid in the cluster
  state, and its first node accepts the relay request, but when the master
  resolves it for another node it is refused on the way, because two nodes
  have been visited already; and so is a valid route that names that node, or
  the master after its first node (`ResolvedChainReaches`, `ReachesIffShort`).
  A route named `resolve` is never relayed.
- *Mandatory routes and client wishes.*  A mandatory route to a node the user
  may not use is an error without a client wish and is granted with one
  (`WishWidensAccess`); the two agree exactly when the user may use every node
  of that route (`WishAgreesIffAllowed`).
- *The load in a score.*  `internal/constellation/scheduler.go:95` multiplies
  before it divides.  The load is the true share of the streams in use exactly
  as long as that product does not wrap (`LoadIsTrueShare`); past it a nearly
  full lease can count as an empty one (`LoadWraps`).
- *Revisions.*  Removing a node or a route always leaves a valid state unless a
  revision would wrap around to zero (`NodeRemovalIsValid`, `RouteRemovalIsValid`).

## Model

| member | source | states |
|---|---|---|
| DeliveryTheorems.ExactlyOnceDelivery | internal/continuity/stream.go:102-415 | After any run of writes, partial writes, failures, detaches, replacements of any length and reads, in which whatever is appended during a replay finds whole copy buffers left, the bytes read are a prefix of the bytes written, as many as the receive offset says. |
| DeliveryTheorems.UncleanAppendBreaksDelivery | internal/continuity/stream.go:375-389 | Any other append during a replay, of any payload, can be continued to a run that delivers more bytes than were written. |
| DeliveryTheorems.PartialChunkBreaksDelivery | internal/continuity/stream.go:375-389 | Whenever a replacement of more than a copy buffer and no multiple of it may begin, some write during it leads to such a run. |
| DeliveryTheorems.DuplicateIsReachable | internal/continuity/stream.go:375-389 | Such a run from two new endpoints. |
| DeliveryTheorems.WholeChunksAreClean | internal/continuity/stream.go:375-389 | Replacements of at most a copy buffer or a multiple of it may be appended to at any time. |
| DeliveryTheorems.InvRun | internal/continuity/stream.go:102-415 | The whole invariant of sender, journal, channels and reader is kept by every run with such appends only. |
| DeliveryTheorems.OnTrackStep | internal/continuity/stream.go:375-389 | Whole chunks left, or nothing appended since the snapshot: every step keeps the replay from running past its snapshot. |
| DeliveryTheorems.ChunkTaken | internal/continuity/stream.go:375-389 | A chunk out of whole chunks is whole, however much has been appended behind it. |
| DeliveryTheorems.LastChunkOverruns | internal/continuity/stream.go:379-389 | A partial last chunk reads past the snapshot once something has been appended. |
| DeliveryTheorems.OverrunDuplicates | internal/continuity/stream.go:137-192 | The writer behind such a replay sends the bytes again, and the reader gets more than was written. |
| MigrationTheorems.PeerOffsetCovered | internal/continuity/stream.go:363-481 | Over every run, writes cut short included, in which no replacement fails that has unsent bytes in its snapshot, a quiesced sender has the peer's offset between journal base and transmitted offset, so a replacement there is admitted. |
| MigrationTheorems.DrainedIsSafe | internal/continuity/stream.go:363-389 | A caller who begins replacements only with everything transmitted meets that condition, however they fail. |
| MigrationTheorems.UndrainedReplaceStrandsPeer | internal/continuity/stream.go:363-389 | Any replacement agreed at the peer's offset that begins with bytes unsent and no write in flight can fail so that no replacement at the peer's offset is admitted any more. |
| MigrationTheorems.PeerCanBeStranded | internal/continuity/stream.go:363-389 | Such a run from two new endpoints, with one byte. |
| MigrationTheorems.ReplayStaysRetained | internal/continuity/stream.go:369-389 | Over every run of agreed replacements, whatever is acknowledged meanwhile, directly or deferred, the journal holds the next chunk of the replay. |
| MigrationTheorems.BehindReplayStep | internal/continuity/stream.go:267-389 | Every step of agreed replacements keeps the reader at or behind the replay and on no other stream than the candidate. |
| MigrationTheorems.MigrationBarrier | internal/continuity/stream.go:363-371 | Once quiesced and without a leak, the peer's offset lies between the journal base and the transmitted offset, so a replacement there is admitted. |
| MigrationTheorems.NoLeakRun | internal/continuity/stream.go:344-415 | Over every such run no failed candidate holds more than has been transmitted. |
| MigrationTheorems.FailureStaysBelowSnapshot | internal/continuity/stream.go:379-389 | However a replay fails, its candidate took nothing beyond the snapshot. |
| MigrationTheorems.LeakStrandsPeer | internal/continuity/stream.go:363-366 | A peer that reads bytes a failed candidate took beyond the transmitted offset can no longer be resumed at its true offset. |
| MigrationTheorems.DetachQuiesces | internal/continuity/stream.go:420-448 | Detaching returns with no attempt in flight and no acknowledgement staged; if it had to wait, the deferred one has been applied. |
| MigrationTheorems.TransmittedGrows | internal/continuity/stream.go:102-415 | No step of any kind lowers the transmitted offset. |
| HalfCloseTheorems.HalfCloseFollowsEveryByte | internal/continuity/stream.go:217-265 | Over every run in which each write that returns was transmitted, a half-closed channel has carried every byte written from its start on. |
| HalfCloseTheorems.SettledFinIsCarried | internal/continuity/stream.go:217-265 | Over every run, whenever the sender counts its half-close as transmitted, the current channel has been given it or cannot be half-closed. |
| HalfCloseTheorems.CompletedIsCareful | internal/continuity/stream.go:217-265 | Such a writer never requests a half-close while a replay is behind the journal. |
| HalfCloseTheorems.HalfClosedRun | internal/continuity/stream.go:390-413 | Half-close order is kept by every run in which no half-close is requested behind a replay. |
| HalfCloseTheorems.CarelessCloseBreaksOrder | internal/continuity/stream.go:390-413 | Any half-close requested behind a replay can be continued to a channel that is half-closed before its last bytes. |
| HalfCloseTheorems.FinCanOvertake | internal/continuity/stream.go:390-413 | Such a run from two new endpoints. |
| HalfCloseTheorems.ReplacementRepeatsFin | internal/continuity/stream.go:390-413 | A replacement finished after a local half-close carries the half-close too, if the channel supports it. |
| HalfCloseTheorems.FinInOrder | internal/continuity/stream.go:390-413 | At the end of a replay the half-close is in order exactly when the replay read the whole journal. |
| HalfCloseTheorems.AbandonedWriteLosesToFin | internal/continuity/stream.go:390-413 | A write abandoned during a replay and followed by a half-close is overtaken by it. |
| HalfCloseTheorems.SettledStep | internal/continuity/stream.go:102-265 | If every write that returns was transmitted, everything accepted outside a write has been transmitted, step by step. |
| DeliveryProofs.InvStep | internal/continuity/stream.go:102-415 | Every step of every party keeps the whole invariant, except exactly the publication of a replay that ran past its snapshot. |
| DeliveryProofs.InvInitial | internal/continuity/stream.go:72-100 | A new pair of endpoints satisfies it. |
| DeliveryProofs.ChunkIsLogSlice | internal/continuity/stream.go:379-389 | A replayed chunk is the slice of the written bytes that continues what the candidate already carries. |
| DeliveryProofs.ControlEndAttempt | internal/continuity/stream.go:153-183 | The end of a write attempt keeps the offsets in order, with acknowledgements deferred during it. |
| DeliveryProofs.ControlSettle | internal/continuity/stream.go:174-192 | Applying a deferred acknowledgement keeps the offsets in order. |
| DeliveryProofs.ControlBeginReplace | internal/continuity/stream.go:344-378 | Admitting a replacement, with its implied acknowledgement, keeps the offsets in order. |
| DeliveryProofs.ControlPublish | internal/continuity/stream.go:402-415 | Publishing a replacement keeps the offsets in order exactly when the replay stopped at its snapshot. |
| DeliveryProofs.ControlDeliver | internal/continuity/stream.go:267-340 | A read keeps channel start plus consumed plus discarded equal to the receive offset. |
| DeliveryProofs.ControlInstall | internal/continuity/stream.go:402-415 | Installing the replacement on the reading side re-establishes that equation through the discard counter. |
| DeliveryProofs.ControlAcknowledge | internal/continuity/stream.go:450-472 | An acknowledgement of bytes the peer has, staged or applied, keeps the offsets in order. |
| DeliveryProofs.ContentDeliver | internal/continuity/stream.go:267-340 | What a read hands over are the next bytes written, and the receive offset cannot overflow. |
| StreamRegions.EndAttemptAccounts | internal/continuity/stream.go:148-192 | A settled attempt counts exactly the bytes the physical stream sanely reported. |
| StreamRegions.AckFrees | internal/continuity/stream.go:450-481 | An acknowledgement of transmitted bytes moves the base there, keeps exactly the later bytes, and a write is accepted from then on exactly when it fits the capacity so freed and the sequence range. |
| StreamRegions.StagedAcksKeepHighest | internal/continuity/stream.go:459-465 | Acknowledgements of the write in flight, in any order, are kept as their maximum and free nothing yet. |
| StreamRegions.StagedAcksFree | internal/continuity/stream.go:154-192 | Once that write settles with enough bytes taken, the journal is freed up to the highest of them; with fewer nothing is freed, and a failed or short write reports the acknowledgement as invalid. |
| StreamRegions.FinIsPerStream | internal/continuity/stream.go:217-265 | A half-close sent on the current stream stays done until that stream fails, which undoes it; a late answer of the failed stream counts for nothing. |
| StreamRegions.HalfCloseEndsWriting | internal/continuity/stream.go:102-119 | After a half-close every write is refused, on this stream and on later ones. |
| StreamRegions.CloseIsFinal | internal/continuity/stream.go:497-514 | After a close nothing is accepted, attempted, read, acknowledged, replaced or published, and nothing is retained. |
| StreamRegions.ReplacementSkipsReceived | internal/continuity/stream.go:402-415 | A replacement is published exactly on an open stream without one that has received at least what the peer repeats; a read of it then delivers what has not been received and drops the rest. |
| StreamRegions.FreshIsReady | internal/continuity/stream.go:72-124 | A new stream takes exactly the payloads that fit and can send them at once. |
| StreamRegions.ReadNotifies | internal/continuity/stream.go:309-314 | A read tells the peer exactly when the bytes it has not been told of have grown to the acknowledgement interval. |
| StreamRegions.NotificationsArePaced | internal/continuity/stream.go:309-314 | Over any run of reads the peer is never owed a whole interval, and is told at most once per interval of bytes. |
| Resumable.ResumableStream.constructor | internal/continuity/stream.go:72-100 | A new stream is the fresh endpoint of its configuration. |
| Resumable.ResumableStream.StartWrite | internal/continuity/stream.go:112-126 | The payload enters the journal, or the refusal is the one the state calls for. |
| Resumable.ResumableStream.Write | internal/continuity/stream.go:102-213 | Alone on the stream: what was sent is the front of the payload, as long as the answers allow; the journal holds all of it; every refusal is as specified. |
| Resumable.ResumableStream.Transmit | internal/continuity/stream.go:127-212 | The retry loop sends exactly what the answers accept before a failure, and succeeds exactly when that is everything. |
| Resumable.ResumableStream.WriteOnce | internal/continuity/stream.go:138-192 | One attempt advances the transmitted offset by exactly what was accepted. |
| Resumable.ResumableStream.Ack | internal/continuity/stream.go:450-472 | Succeeds exactly for transmitted offsets still in the journal, which are freed at once, and for offsets of the write in flight, which are kept for its end; a refusal changes nothing. |
| Resumable.ResumableStream.AckJournal | internal/continuity/stream.go:474-481 | A deferred acknowledgement at or below the base is already covered. |
| Resumable.ResumableStream.SettleWrite | internal/continuity/stream.go:148-192 | A returned write is accounted for and an acknowledgement that came in meanwhile is applied: if the bytes were taken, the journal is freed up to it. |
| Resumable.ResumableStream.Replace | internal/continuity/stream.go:344-415 | Alone on the stream: success means the candidate carries exactly the unacknowledged journal and is published; failure leaves all but the acknowledgement unchanged. |
| Resumable.ResumableStream.ReplayJournalFrom | internal/continuity/stream.go:375-389 | The chunk loop replays exactly the retained bytes, or a prefix of them when a write fails. |
| Resumable.ResumableStream.ReplayThrough | internal/continuity/stream.go:375-389 | The loop itself, over a copy buffer that is not the journal's. |
| Resumable.ResumableStream.ReadInto | internal/continuity/stream.go:267-340 | The discarded front is shifted out in place, the rest moves to the front, and notification follows the specification. |
| Resumable.ResumableStream.Close | internal/continuity/stream.go:497-514 | Closing drops the physical stream and scrubs the journal. |
| Resumable.WriteAll | internal/continuity/stream.go:574-589 | Takes exactly what the answers accept before a failure, a bad count or no progress; succeeds exactly when every byte was taken. |
| StreamRegions.WrittenForRange | internal/continuity/stream.go:564-572 | The number of bytes of a range that were transmitted: the transmitted offset, kept within the range, less its start. |
| ReplayJournal.RetainsAcceptedSuffix | internal/continuity/journal.go:40-148 | Over any sequence of operations an open journal retains exactly the accepted bytes at or above its base, and the base never falls. |
| ReplayJournal.AppendedRing | internal/continuity/journal.go:40-66 | Writing behind the window of the ring concatenates, through every wrap, and keeps unused cells zero. |
| ReplayJournal.RetiredRing | internal/continuity/journal.go:70-94 | Zeroing the front of the window and moving the head drops a prefix and keeps unused cells zero. |
| ReplayJournal.ReplayedRing | internal/continuity/journal.go:98-120 | A run of ring cells is a slice of the contents. |
| ReplayJournal.Journal.Append | internal/continuity/journal.go:40-66 | Concatenates to the retained bytes or refuses, with the offsets of the new bytes. |
| ReplayJournal.Journal.Ack | internal/continuity/journal.go:70-94 | Drops the acknowledged prefix or refuses the offset. |
| ReplayJournal.Journal.Replay | internal/continuity/journal.go:98-120 | Fills the destination with the retained bytes from an offset and touches nothing else. |
| ReplayJournal.Journal.Clear | internal/continuity/journal.go:150-154 | Zeroes exactly the named ring cells. |
| ReplayJournal.Journal.Close | internal/continuity/journal.go:134-148 | Leaves every cell of the old buffer zero and the offsets readable. |
| ReplayJournal.NewJournal | internal/continuity/journal.go:33-38 | Succeeds exactly for capacities in range, with an empty journal. |
| LeaseTickets.SingleUse | internal/continuity/ticket.go:112-175 | A rotated or consumed ticket is refused after any later operations, for anybody and at any time, unless one of them draws it again or rolls its rotation back. |
| LeaseTickets.ExpiredTicketsGo | internal/continuity/ticket.go:78-274 | Any operation an open registry hears leaves no ticket that has expired by its time. |
| LeaseTickets.QuotaHolds | internal/continuity/ticket.go:78-274 | No run of operations holds more tickets than the registry may; rotations and rollbacks keep their number. |
| LeaseTickets.GoneUntilBroughtBack | internal/continuity/ticket.go:78-239 | A ticket that is gone comes back by exactly those operations. |
| LeaseTickets.SuccessorIsRedeemable | internal/continuity/ticket.go:139-175 | The successor of a rotated ticket is redeemable by the same parties until it expires. |
| LeaseTickets.RollbackUndoesRotate | internal/continuity/ticket.go:180-214 | A rotation can be rolled back exactly while the old ticket is unexpired, and then the live tickets are restored. |
| LeaseTickets.TicketRegistry.Cleanup | internal/continuity/ticket.go:268-274 | The loop deletes exactly the expired tickets. |
| LeaseTickets.TicketRegistry.NewTicket | internal/continuity/ticket.go:276-291 | The first draw that is neither zero nor in use, among a bounded number. |
| LeaseTickets.TicketRegistry.Issue | internal/continuity/ticket.go:78-110 | A new ticket bound to principal, constellation and transcript, or the refusal specified. |
| LeaseTickets.TicketRegistry.Consume | internal/continuity/ticket.go:112-135 | The ticket goes and its grant is returned, or the refusal specified. |
| LeaseTickets.TicketRegistry.Rotate | internal/continuity/ticket.go:139-175 | The ticket is exchanged for a fresh one in one step, or nothing is consumed. |
| LeaseTickets.TicketRegistry.RollbackRotate | internal/continuity/ticket.go:180-214 | The old ticket comes back with its old expiry, or the refusal specified. |
| LeaseTickets.TicketRegistry.Revoke | internal/continuity/ticket.go:218-239 | Removes the ticket exactly when it is live and bound as claimed. |
| ProtocolProofs.TicketAgreement | internal/constellation/control.go:44-233 | Over every run of less than 2^64 - 2 messages in which answers are delivered and later committed or undelivered and taken back, and clients may act before the commit, a client at rest with an unexpired ticket holds exactly the one ticket the registry has for its constellation. |
| ProtocolProofs.NetInvRun | internal/constellation/control.go:44-233 | The joint invariant of hub and clients is kept by every such run. |
| ProtocolProofs.ExchangeKeepsNet | internal/constellation/control.go:44-233 | Every message, clock tick, sweep and closing keeps it. |
| ProtocolProofs.CreateKeepsNet | internal/constellation/control.go:138-189 | Asking for a create keeps it, admitted or refused. |
| ProtocolProofs.AttachKeepsNet | internal/constellation/control.go:191-233 | Asking for an attach keeps it, admitted or refused. |
| ProtocolProofs.DeliverKeepsNet | internal/constellation/control.go:105-108 | The client's receipt keeps it before the server has committed. |
| ProtocolProofs.CommitKeepsNet | internal/constellation/control.go:109-112 | The server's commit keeps it, whatever the client has done with its ticket meanwhile. |
| ProtocolProofs.UndeliverIsPossible | internal/constellation/control.go:105-108 | The ticket of an answer that was not delivered has not been redeemed, so its create can be taken back. |
| ProtocolProofs.UndeliverKeepsNet | internal/constellation/control.go:105-108 | An undeliverable answer puts the server back to the ticket the client still has. |
| ProtocolProofs.LostAnswerLocksOut | internal/constellation/control.go:191-233 | After a committed rotation the old ticket is refused after any later operations that do not draw it again. |
| ProtocolProofs.ExchangeIsStep | internal/constellation/control.go:44-233 | Every message is a possible event of the hub or leaves it alone; no create is taken back whose ticket has been redeemed. |
| HubProofs.TicketsOfReachableHub | internal/constellation/hub.go:135-398 | In every hub reachable in less than 2^64 - 2 events, whatever tickets are presented when, as long as no create is taken back beside another ticket or lease of its constellation, each unexpired ticket is the only one of its constellation, bound to the record's principal, and its record is not swept. |
| HubProofs.CarefulIsLegal | internal/constellation/hub.go:135-398 | Every run that presents no ticket of a pending create meets that condition. |
| HubProofs.RedeemedCreateOrphans | internal/constellation/hub.go:308-353 | A create taken back beside another live ticket of its constellation leaves that ticket without a record. |
| HubProofs.InvRun | internal/constellation/hub.go:135-398 | The hub invariant is kept by every run of creates, attaches, commits, aborts, closings, sweeps and clock ticks. |
| HubProofs.InvStep | internal/constellation/hub.go:135-398 | Every single step keeps it, the controllers of all records and their identifiers included. |
| HubProofs.InvCreate | internal/constellation/hub.go:135-187 | A create keeps it, with the new ticket the only one. |
| HubProofs.InvAttach | internal/constellation/hub.go:197-244 | An attach keeps it, refused or admitted. |
| HubProofs.InvAbort | internal/constellation/hub.go:308-331 | Rolling any rotation back, or revoking a create that was not redeemed, keeps it. |
| HubProofs.InvFinish | internal/constellation/hub.go:333-365 | Discarding a record or giving a lease up keeps it. |
| HubProofs.InvLeave | internal/constellation/hub.go:366-376 | Marking the record as seen afterwards, or finding it gone, keeps it. |
| HubProofs.ControllersStep | internal/constellation/hub.go:135-376 | Every event keeps the invariant of every record's controller. |
| HubProofs.InvSweep | internal/constellation/hub.go:378-398 | Evicting inactive records keeps it. |
| HubTheorems.RefusedAttachLeavesNoTrace | internal/constellation/hub.go:197-244 | In a reachable hub a refused attach changes no lease, order, primary, last-seen time or live ticket. |
| HubTheorems.UndeliveredAttachRestores | internal/constellation/hub.go:284-331 | In a reachable hub an attach taken back restores leases, order and primary, and the live tickets exactly when the old one has not expired meanwhile or both have. |
| HubTheorems.UndeliveredCreateRestores | internal/constellation/hub.go:284-353 | A create taken back at any later time leaves records, attachments and live tickets as they were. |
| HubTheorems.AddThenRemoveRestores | internal/constellation/controller.go:293-340 | Admitting a lease and removing it restores leases, order and primary. |
| HubTheorems.PresentedWhilePending | internal/constellation/hub.go:308-353 | A ticket redeemed while its create is pending outlives the record when the create is taken back, beside a new owner of the constellation. |
| HubTheorems.OrphanIsReachable | internal/constellation/hub.go:308-353 | Such a story for every empty hub with room for two leases and two tickets and for all parties. |
| HubObject.Hub.constructor | internal/constellation/hub.go:103-125 | A new hub is empty, with the configuration given. |
| HubObject.Hub.Sweep | internal/constellation/hub.go:378-398 | A record stays exactly if it holds a lease, was seen less than the inactivity period ago, or was seen later than now; what stays is unchanged, and the controllers of the others are closed. |
| HubObject.Hub.Evict | internal/constellation/hub.go:380-394 | The loop under the lock leaves exactly those records and returns the controllers of all the others, which no record left shares. |
| HubTheorems.AbandonedIsEvicted | internal/constellation/hub.go:135-398 | In every hub reachable in less than 2^64 - 2 events a sweep removes a record exactly when no attachment holds a lease of its constellation and it has not been seen for the inactivity period: no lease and no constellation leaks. |
| HubTheorems.HoldersRun | internal/constellation/hub.go:135-376 | Over every legal run each lease of each record is active and held by an attachment that has not given it up. |
| HubTheorems.DiscardTakesRecord | internal/constellation/hub.go:284-353 | Closing a create that was taken back removes its record, lease and all. |
| HubTheorems.EvictedCanBeCreated | internal/constellation/hub.go:135-187 | A leaseless constellation past its period, and no other, can be created again; only its ticket can then be refused. |
| HubTheorems.ReleaseStartsPeriod | internal/constellation/hub.go:355-398 | A release counts as a sighting: the record survives every sweep of the next period, and the first one after it takes the record if it holds no lease. |
| HubTheorems.AttachStartsPeriod | internal/constellation/hub.go:197-244 | So does a successful attach. |
| HubObject.Hub.Create | internal/constellation/hub.go:135-187 | The swept hub with a new record over a new controller object, or the refusal specified; a duplicate is reported exactly for a constellation that the sweep keeps. |
| HubObject.Hub.Attach | internal/constellation/hub.go:197-244 | On the controller objects of the records: the swept hub with a new lease and a rotated ticket, or the lease removed again and its resource closed when rotation fails; no other record changes. |
| HubObject.Hub.AbortAdmission | internal/constellation/hub.go:308-331 | Revokes an issued ticket or rolls a rotation back. |
| HubObject.Hub.Discard | internal/constellation/hub.go:333-353 | The record goes, and its controller object is stopped with all it owns, exactly while the lease is still primary. |
| HubObject.Hub.Release | internal/constellation/hub.go:355-376 | The lease leaves the record's controller object, which closes it, and the record counts as seen; no other record changes. |
| HubObject.HubAttachment.Close | internal/constellation/hub.go:284-297 | Takes an uncommitted admission back before giving the lease up; only the first call does anything. |
| HubObject.ClientControl.TakeMessageId | internal/constellation/control.go:248-255 | An identifier handed out was never handed out before; refused exactly out of range. |
| HubObject.ClientControl.Create | internal/constellation/control.go:138-189 | The client adopts a constellation exactly when it had none and the answer is to this very request. |
| HubObject.ClientControl.Attach | internal/constellation/control.go:191-233 | The client takes a new ticket exactly for the answer to this very request, and keeps the old one otherwise. |
| LeaseController.ResourcesClosedOnce | internal/constellation/controller.go:85-319 | Over every run of a new controller of less than 2^64 - 2 operations the invariant holds and resources taken on are those closed plus those still listed; a run that ends stopped has closed each exactly once. |
| LeaseController.RunConservesResources | internal/constellation/controller.go:105-319 | The same from any controller over any run that takes free identifiers. |
| LeaseController.UnwrappedRun | internal/constellation/controller.go:331-340 | Every run that ends before the counter does takes free identifiers only. |
| LeaseController.StepConservesResources | internal/constellation/controller.go:105-319 | Every step conserves resources. |
| LeaseController.StepKeepsInv | internal/constellation/controller.go:105-319 | Every step keeps primary, order, keys and limits as they should be. |
| LeaseController.AddKeepsInv | internal/constellation/controller.go:105-130 | Admission keeps the invariant exactly when its identifier is free. |
| LeaseController.UnwrappedStep | internal/constellation/controller.go:331-340 | Before the counter wraps every identifier is free. |
| LeaseController.PromoteKeepsInv | internal/constellation/controller.go:180-208 | Promotion keeps the controller's invariant. |
| LeaseController.BeginDrainKeepsInv | internal/constellation/controller.go:210-237 | Draining keeps the controller's invariant. |
| LeaseController.PromoteHandsOver | internal/constellation/controller.go:180-208 | Succeeds exactly for an active lease while the old primary may drain; then the lease is primary, the old primary is draining, and no other lease is touched. |
| LeaseController.BeginDrainDrains | internal/constellation/controller.go:210-237 | Succeeds exactly for an active lease with room to drain and another active lease left; then it is draining, and if it was primary the earliest active lease in admission order is. |
| LeaseController.SetLoadSets | internal/constellation/controller.go:132-147 | The load of the lease named is the new one; nothing else changes. |
| LeaseController.RemoveKeepsInv | internal/constellation/controller.go:293-319 | Removing a lease re-elects the primary and keeps the listing. |
| LeaseController.StopKeepsInv | internal/constellation/controller.go:260-286 | Stopping leaves nothing. |
| LeaseController.FirstActiveFinds | internal/constellation/controller.go:352-359 | The first active lease in order is a correct primary. |
| ControllerObject.SelectionIsFair | internal/constellation/controller.go:149-178 | The next selections, as many as there are leases tied at the least load, pick each of them if and only if the 64-bit cursor does not wrap meanwhile or wraps at a multiple of their number. |
| ControllerObject.WrapPassesOver | internal/constellation/controller.go:175-176 | Three ties at the end of the word: positions 0, 0 and 1 are picked, position 2 is passed over. |
| ControllerObject.SomeonePassedOver | internal/constellation/controller.go:175-176 | Whenever the condition fails, a position that is not served. |
| ControllerObject.Controller.constructor | internal/constellation/controller.go:85-103 | A controller starts with its first lease as primary. |
| ControllerObject.Controller.Add | internal/constellation/controller.go:105-130 | A new active lease at the end of the order, or the refusal specified. |
| ControllerObject.Controller.UpdateLoad | internal/constellation/controller.go:132-147 | Only the load of one lease changes. |
| ControllerObject.Controller.Select | internal/constellation/controller.go:149-178 | An active lease of least load, the tie broken by the cursor, which then advances. |
| ControllerObject.Controller.LeastLoaded | internal/constellation/controller.go:149-178 | One pass finds the least load and every active lease tied at it, in order. |
| ControllerObject.Controller.Promote | internal/constellation/controller.go:180-208 | On success the lease is primary and the old primary draining, everything else as before; on refusal nothing changes. |
| ControllerObject.Controller.BeginDrain | internal/constellation/controller.go:210-237 | On success the lease is draining and the earliest active one is primary if it was; on refusal nothing changes. |
| ControllerObject.Controller.RemoveAndClose | internal/constellation/controller.go:293-319 | The removal specified; exactly the resource of that lease is closed. |
| ControllerObject.Controller.Stop | internal/constellation/controller.go:260-286 | Exactly the resources still owned are closed, and only once. |
| ControllerObject.Controller.CountState | internal/constellation/controller.go:342-350 | The loop counts the leases in a state. |
| ControllerObject.Controller.FindFirstActive | internal/constellation/controller.go:352-359 | The loop finds the first active lease in order. |
| ControllerObject.Controller.RemoveOrder | internal/constellation/controller.go:361-368 | The loop removes the first occurrence and nothing else. |
| FlowRegistry.UpstreamsClosedOnce | internal/continuity/flow.go:87-240 | Over every run counters equal live flows within quota, and each upstream is closed as often as it was handed over; exactly so once the registry is closed. |
| FlowRegistry.IncarnationKeepsUpstream | internal/continuity/flow.go:122-161 | While a flow survives, its epoch is the old one plus the number of attaches that moved it, its key is the last mover's, an epoch has one lease key, and the upstream never changes. |
| FlowRegistry.AttachPlaces | internal/continuity/flow.go:122-161 | An attach succeeds exactly for the owner's request that repeats the flow's epoch and key or asks for the next epoch; then the flow is at that epoch under that key and nothing else changes; a conflicting attach costs exactly the flow, any other refusal nothing. |
| FlowRegistry.CreateAdmits | internal/continuity/flow.go:87-120 | A create succeeds exactly with a whole request, in an open registry, within the total quota and the principal's, and with an unused identifier asked for or among the first eight drawn. |
| FlowRegistry.CreateOpens | internal/continuity/flow.go:87-120 | It opens exactly the flow asked for, at epoch one; a refusal changes nothing. |
| FlowRegistry.ReleaseTakes | internal/continuity/flow.go:179-207 | A release succeeds exactly for the owner of a live flow, and takes that flow and nothing else. |
| FlowRegistry.StepMoves | internal/continuity/flow.go:122-161 | Epoch and key of a surviving flow change exactly at a step that moves it. |
| FlowRegistry.StepKeepsInv | internal/continuity/flow.go:87-265 | Every operation keeps exact counters and quotas. |
| FlowRegistry.StepConservesUpstream | internal/continuity/flow.go:87-240 | Every operation conserves upstreams. |
| FlowRegistry.CreateKeepsInv | internal/continuity/flow.go:87-120 | A new flow adds one to its principal and stays within both limits. |
| FlowRegistry.DropKeepsInv | internal/continuity/flow.go:179-207 | A dropped flow takes one from its principal, and the entry with the last. |
| FlowRegistry.MoveKeepsInv | internal/continuity/flow.go:122-161 | Moving a flow to the next epoch changes no count. |
| FlowRegistryObject.Registry.Create | internal/continuity/flow.go:87-120 | The registry with the new flow, or the refusal specified. |
| FlowRegistryObject.Registry.Attach | internal/continuity/flow.go:122-161 | The flow is left at the requested epoch under the requested key, or, on a conflict, is gone with its upstream returned; every other flow and count is as before. |
| FlowRegistryObject.Registry.Release | internal/continuity/flow.go:179-207 | Removes the flow, closes its upstream and lowers the counter, or refuses. |
| FlowRegistryObject.Registry.Close | internal/continuity/flow.go:218-240 | Closes every upstream still owned. |
| FlowRegistryObject.Registry.NewFlowId | internal/continuity/flow.go:242-256 | The first draw that is neither zero nor in use, among a bounded number. |
| LeaseScheduler.Select | internal/constellation/scheduler.go:46-83 | The lease chosen is healthy, valid, not full, measured within bounds and able to carry the class, and costs no more than any other such lease, the smallest key among equals; the current one is kept at up to the threshold more; an error exactly when there is none. |
| LeaseScheduler.ChoiceIgnoresOrder | internal/constellation/scheduler.go:46-83 | For distinct keys the choice does not depend on the order of candidates. |
| LeaseScheduler.ChoiceIsStable | internal/constellation/scheduler.go:46-83 | The lease just chosen is chosen again. |
| LeaseScheduler.SwitchNeedsMargin | internal/constellation/scheduler.go:75-83 | An eligible lease is left only for one better by more than the threshold. |
| LeaseScheduler.LoadBelowThousand | internal/constellation/scheduler.go:85-109 | For all 64-bit inputs, wrapped product included, the load stays below one thousand. |
| LeaseScheduler.ScoreBelowSentinel | internal/constellation/scheduler.go:85-109 | No score overflows or equals the sentinel. |
| LeaseScheduler.ScoreIsMonotone | internal/constellation/scheduler.go:85-109 | A lease no worse in round trip, loss, queue, load and throughput scores no worse. |
| LeaseScheduler.ScoreWeighs | internal/constellation/scheduler.go:85-109 | What a millisecond, a lost packet, a thousandth of load and a queued kibibyte are worth in each class; throughput counts for bulk traffic alone. |
| LeaseScheduler.LoadIsTrueShare | internal/constellation/scheduler.go:95-95 | The load is the true share of the streams in use exactly as long as the 64-bit product does not wrap. |
| LeaseScheduler.LoadGrows | internal/constellation/scheduler.go:95-95 | Up to there more streams are more load. |
| LeaseScheduler.LoadWraps | internal/constellation/scheduler.go:95-95 | Past it a nearly full lease can count as an empty one. |
| LeaseScheduler.CurrentScoreIs | internal/constellation/scheduler.go:46-83 | For distinct keys the current score is that of the one candidate with the current key. |
| CoverEngine.BudgetOfAnyWindow | internal/cover/engine.go:109-220 | Over every window of planned cells a hundred times the overhead is at most the percentage of the real bytes plus one full bucket, and without the bucket from the start. |
| CoverEngine.CreditIsKept | internal/cover/engine.go:109-142 | Credit is neither lost nor made up: while the bucket is not full it holds exactly what real bytes earned and overhead has not spent. |
| CoverEngine.BudgetHolds | internal/cover/engine.go:109-220 | The same from any credit, with that credit as the additive term. |
| CoverEngine.UniformIsUnbiased | internal/cover/engine.go:308-319 | Every result is reached from exactly one candidate of each accepted block, and every accepted candidate lies in a block. |
| CoverEngine.ThresholdIsWhole | internal/cover/engine.go:308-319 | The rejection threshold is a whole number of blocks and more than half the range. |
| CoverEngine.Engine.constructor | internal/cover/engine.go:82-107 | A new engine has an empty bucket and no history. |
| CoverEngine.Engine.PlanReal | internal/cover/engine.go:109-142 | Padding reaches a bucket within budget and profile, the delay stays within the profile, the history stays affordable, and the cell is observed; a window holding 256 KiB within a second plays the stream profile from this cell on. |
| CoverEngine.Engine.PlanDummy | internal/cover/engine.go:144-177 | A dummy is planned exactly when some size is affordable, with a size and a delay of the profile. |
| CoverEngine.Engine.EnableMosaic | internal/cover/engine.go:193-212 | Refused for the quiet profile; otherwise starts from the class of the baseline, once. |
| CoverEngine.Engine.EarnCredit | internal/cover/engine.go:214-220 | Credit grows up to the full bucket. |
| CoverEngine.Engine.DesiredPadding | internal/cover/engine.go:222-240 | The distance to a bucket of the profile, never past the largest cell. |
| CoverEngine.Engine.ShouldScheduleDummy | internal/cover/engine.go:242-259 | The gate never opens at zero, always opens at one, and in between opens exactly for the words that are among the numerator's share of their block. |
| CoverEngine.GateOpensForShare | internal/cover/engine.go:242-259 | Of the words of every block of the denominator's length exactly as many open the gate as the numerator says. |
| CoverEngine.Engine.RandomDelayRange | internal/cover/engine.go:261-277 | A delay within the bounds in steps of a quarter millisecond. |
| CoverEngine.Engine.Uniform | internal/cover/engine.go:308-319 | The first word below the threshold, reduced to the limit. |
| CoverEngine.Engine.CountAffordable | internal/cover/engine.go:150-158 | One pass counts the increasing sizes the credit covers. |
| MosaicClassifier.ClassificationIsExact | internal/cover/mosaic.go:59-106 | For every sequence of clock readings, forwards or backwards, that continues no window over the zero instant, the class given to a window is the one exact arithmetic gives. |
| MosaicClassifier.CrossingMisclassifies | internal/cover/mosaic.go:59-106 | Whenever a window is continued over the zero instant, an observation hours later classifies it as a stream, which it is not. |
| MosaicClassifier.WindowStaysOk | internal/cover/mosaic.go:59-91 | After every observation the window is shorter than half a second again, exactly unless it reached across the zero instant. |
| MosaicClassifier.ClassifiedIsShort | internal/cover/mosaic.go:59-91 | A classified window is at most three and a half seconds long. |
| MosaicClassifier.RatesAreExact | internal/cover/mosaic.go:177-189 | Within that bound no 64-bit product wraps, and both comparisons are the true ones. |
| MosaicClassifier.CountersStayOk | internal/cover/mosaic.go:170-175 | The counters stay within their bounds. |
| MosaicClassifier.WindowOkRun | internal/cover/mosaic.go:59-91 | The bounds hold after every such sequence of observations. |
| MosaicClassifier.ZeroInstantMisclassifies | internal/cover/mosaic.go:59-106 | Three observations around the zero instant that turn a trickle into a stream. |
| MosaicClassifier.ChangeNeedsAgreement | internal/cover/mosaic.go:59-130 | Over every run of observations the class changes to anything but a stream only when the last two verdicts both gave that class. |
| MosaicClassifier.AgreementChanges | internal/cover/mosaic.go:59-142 | Conversely, two successive verdicts for one class leave that class, whatever it was, unless the clock is turned back or a burst comes in between; a burst leaves a stream. |
| MosaicClassifier.BurstIsStream | internal/cover/mosaic.go:87-90 | After any observation a window open for at most a second that holds at least 256 KiB is classified as a stream. |
| MosaicClassifier.BurstSwitches | internal/cover/mosaic.go:59-91 | Cells that come to 256 KiB before their window closes make the traffic a stream, whatever it was before. |
| MosaicClassifier.WindowAddsUp | internal/cover/mosaic.go:80-85 | Within a window bytes, cells and small cells add up over any run, to the ceilings of their counters. |
| MosaicClassifier.VerdictOnWindow | internal/cover/mosaic.go:73-108 | The verdict on a window is about what was observed in it: a mebibyte a second is a stream; ten cells or more, four fifths of them small, at half a mebibyte a second or less are real-time traffic; the rest is web traffic. |
| CoverProfiles.EveryVariantIsValid | internal/cover/profile_family.go:129-175 | Whatever the key material, the derived profile passes its validation. |
| CoverProfiles.ValidIncreasingSizes | internal/cover/profile_family.go:177-186 | One pass accepts exactly the strictly increasing positive sizes up to the largest cell. |
| CoverProfiles.BaseIsPlayable | internal/cover/profiles.go:54-95 | Every base profile satisfies what the engine relies on. |
| CoverProfiles.IncreasingIsShort | internal/cover/profile_family.go:177-186 | Increasing sizes are few enough for the engine's draws. |
| ClusterRelay.RelayIsLoopFree | internal/clusterrelay/runtime.go:132-180 | Along any chain of accepted requests, resolution at the master included, handling nodes are pairwise distinct and new, at most three follow the origin, and the hops left strictly decrease. |
| ClusterRelay.ForwardedIsAccepted | internal/clusterrelay/runtime.go:171-179 | An accepted request whose path fits the hop limit is accepted by the next node, and the path length is conserved. |
| ClusterRelay.ReachesIffShort | internal/clusterrelay/runtime.go:132-180 | An accepted explicit request gets through exactly when its whole path fits the hop limit and it is not named like a resolution. |
| ClusterRelay.OriginReaches | internal/clusterrelay/runtime.go:224-284 | What a node sends for itself gets through exactly when header and path are well formed. |
| ClusterRelay.MasterOpens | internal/clusterrelay/runtime.go:132-180 | What the master opens for a route it resolved on behalf of an edge node. |
| ClusterRelay.ResolvedChainReaches | internal/clusterrelay/runtime.go:224-284 | What the master resolves for an edge node gets through exactly when it names at most two nodes, all different and neither the edge nor the master. |
| ClusterRelay.ResolvedPathOk | internal/cluster/relay.go:43-64 | The request the master opens repeats no node exactly when edge, master and path do not. |
| ClusterRelay.ChainVisits | internal/clusterrelay/runtime.go:132-180 | Along a chain the visited nodes only grow, by exactly the nodes that handled the request. |
| ClusterRelay.ValidateRelayRequest | internal/cluster/relay.go:30-76 | Accepts exactly well-formed requests whose path repeats no node, avoids this one and fits the hop limit; loops and hop limits are reported as such. |
| ClusterRelay.CheckVisited | internal/cluster/relay.go:43-55 | The loop over visited nodes accepts exactly distinct well-formed ones other than this node. |
| ClusterRelay.CheckRemaining | internal/cluster/relay.go:56-64 | The loop over remaining nodes finds a loop exactly when the whole path has one. |
| ClusterRelay.HandleRelay | internal/clusterrelay/runtime.go:132-180 | Refused unless the credential's peer is the node visited last and the request is valid; a resolution anywhere but at the master, or to a block, is refused; the target is dialled exactly where the path ends; otherwise the next node gets the rest of the path with this node added to the visited ones. |
| ClusterRelay.ApplyAction | internal/clusterrelay/runtime.go:224-284 | A block or unknown action is refused; the target is dialled here exactly for a local action or a path of this node only; any other path is followed from its first foreign node on, through the master, if it has at most three hops. |
| ClusterRelay.ApplyDecides | internal/clusterrelay/runtime.go:224-284 | The same of the action as a function, for every path. |
| ClusterRelay.HandleDecides | internal/clusterrelay/runtime.go:132-180 | The same of the handling as a function, for every request, peer and resolution. |
| ClusterRelay.StripOwn | internal/clusterrelay/runtime.go:240-242 | The loop drops this node from the front of the path. |
| RouteResolution.ResolveRoute | internal/cluster/relay.go:82-120 | The first candidate in the order of routes among enabled, permitted, matching routes, refused if the user may not use its nodes; the current node without one; every error case. |
| RouteResolution.ResolveClientRoute | internal/cluster/client_route.go:56-100 | The first mandatory candidate, else the automatic choice or the wish within allowed nodes; every error case. |
| RouteResolution.ResolutionIgnoresOrder | internal/cluster/relay.go:82-120 | Resolution has one answer, whatever order routes and access are stored in. |
| RouteResolution.ClientResolutionIgnoresOrder | internal/cluster/client_route.go:56-100 | The same for a client's wish. |
| RouteResolution.MandatoryIgnoresWish | internal/cluster/client_route.go:81-86 | Under a mandatory route any two wishes get the same answer. |
| RouteResolution.WishAgreesIffAllowed | internal/cluster/client_route.go:81-86 | A wish and none agree under a mandatory route exactly when the user may use all of its nodes. |
| RouteResolution.WishWidensAccess | internal/cluster/client_route.go:81-86 | A state in which a mandatory route is refused without a wish and granted with any. |
| RouteResolution.WishStaysAllowed | internal/cluster/client_route.go:87-99 | Without a mandatory route a client reaches allowed nodes only. |
| RouteResolution.MandatoryComesFirst | internal/cluster/model.go:339-347 | The first mandatory candidate is the first of all candidates. |
| RouteResolution.FirstIsUnique | internal/cluster/model.go:339-347 | There is one first candidate, wherever it is stored. |
| RouteResolution.FindFirst | internal/cluster/relay.go:109-118 | The loop over the effective routes stops at the first candidate of the stored ones. |
| RouteResolution.EffectiveRoutes | internal/cluster/model.go:325-349 | Enabled administrator routes and, where allowed, the client's own optional ones, each exactly as often as listed; mandatory ones first, then by priority, then by identifier. |
| RouteResolution.FirstRanks | internal/cluster/relay.go:109-118 | The route that decides is enabled, the administrator's, permitted and matching, and ranks before every other such route: mandatory first, then the smaller priority, then the smaller identifier. |
| RouteResolution.DomainIsUnder | internal/cluster/model.go:291-296 | A suffix stands for itself and for every name below it, label by label. |
| RouteResolution.BareRouteMatches | internal/cluster/model.go:268-290 | A route that restricts nothing matches every well-formed target, exactly while it is enabled. |
| RouteResolution.SortedIsUnique | internal/cluster/model.go:339-348 | For distinct identifiers there is one sorted arrangement. |
| RouteResolution.BeforeTotal | internal/cluster/model.go:339-347 | Routes with different identifiers are ordered one way or the other. |
| RouteResolution.BeforeTransitive | internal/cluster/model.go:339-347 | The order of routes is transitive. |
| RouteResolution.MatchesWith | internal/cluster/model.go:268-309 | Matches exactly enabled routes whose protocols, ports and places admit the target. |
| ClusterModel.ValidateState | internal/cluster/model.go:133-195 | Accepts exactly states with one master, unique identifiers, resolved references and sizes and revisions in range. |
| ClusterModel.ValidateRoute | internal/cluster/model.go:197-260 | Accepts exactly valid routes. |
| ClusterModel.CheckNodes | internal/cluster/model.go:139-155 | The loop accepts exactly well-formed nodes with unique identifiers and counts the masters. |
| ClusterModel.CheckRoutes | internal/cluster/model.go:156-170 | The loop accepts exactly valid routes with unique identifiers over known nodes. |
| ClusterModel.CheckAccess | internal/cluster/model.go:171-193 | The loop accepts exactly entries of distinct users with clean, known references. |
| ClusterModel.HasDuplicates | internal/cluster/model.go:449-461 | True exactly when an identifier repeats or is malformed. |
| ClusterModel.ValidateClientRoute | internal/cluster/client_route.go:15-43 | Accepts exactly wishes for one node, a clean chain, or nothing. |
| ClusterAdmin.NodeRemovalIsValid | internal/admin/cluster.go:167-196 | Removing a node that is no master and on no route leaves a valid state exactly when no revision wraps. |
| ClusterAdmin.RouteRemovalIsValid | internal/admin/cluster.go:211-230 | Removing any route leaves a valid state exactly when no revision wraps. |
| ClusterAdmin.AccessSetIsValid | internal/admin/cluster.go:232-263 | Setting an entry leaves a valid state exactly when the entry is valid, there is room and the revision can advance. |
| ClusterAdmin.CanSetIs | internal/admin/cluster.go:232-263 | Whether an access can be set is decided by the request and the identifiers it refers to. |
| ClusterAdmin.PlacedIsSet | internal/admin/cluster.go:249-263 | The entry stored is the one asked for, with a higher revision; a new one gets revision one if it has none. |
| ClusterAdmin.WithoutKeepsClean | internal/admin/cluster.go:371-379 | Exactly the removed identifier goes, and the list stays clean. |
| ClusterAdmin.RemoveInPlace | internal/admin/cluster.go:371-379 | Filters a list inside its own array. |
| ClusterAdmin.MastersAfterRemoval | internal/admin/cluster.go:189-189 | Removing a node that is no master leaves the number of masters. |
| ClusterAdmin.Manager.Save | internal/cluster/store.go:130-153 | Saves exactly the next revision of the same cluster in a valid state; otherwise nothing changes. |
| ClusterAdmin.Manager.RemoveNode | internal/admin/cluster.go:167-196 | Succeeds exactly for a node that is there, is no master and is on no route, below revision overflow; the stored state stays valid. |
| ClusterAdmin.Manager.RemoveRoute | internal/admin/cluster.go:211-230 | Succeeds exactly for a route that is there, below revision overflow; the stored state stays valid. |
| ClusterAdmin.Manager.SetAccess | internal/admin/cluster.go:232-263 | Succeeds exactly for an active user when the request's own references are clean and resolve, the revisions can advance and there is room; then the user's entry is the request in everything but the revision, which is the request's if that is higher and the next one otherwise; everyone else's entry stays. |

## Left out

- The user interfaces, command-line tools, setup and services, and the web interface.
- The carriers, the multiplexer and the sessions: the model starts where a physical stream answers a read or a write.
- The client core's lifecycle, the control channel's receive loop, configuration and file validation.
- Hashing, signatures, key derivation and encodings: they are parameters or draws; the cover generator is a sequence of words in which an acceptable one always follows.
- The syntax of domains, addresses, prefixes, display names and geographic rules: flags and parameters stand for it.
- Files, permissions and renames behind the cluster store, and changes to it made by another process between a load and a save.
- Closing the hub or the registry in the run systems: the theorems about runs are about open ones, the methods and functions cover both.
- The reverse direction of a stream: each theorem about delivery is about one direction, and the other direction's offsets appear only where the code reads them.
- Interleavings finer than regions under a lock; the admission check, the implied acknowledgement and the snapshot of `Replace` are one step, as are the lookup and the failing of the lease in `release`, and a draw that repeats a ticket consumed by a pending rotation is excluded.
- The statistics of the cover engine beyond what the budget needs, and the distribution of its delays.
- HubObject.Hub.Attach: asks for a free lease identifier, because with a wrapped counter whose next identifier is in use the controller's own invariant ends.
- ClusterAdmin.Manager.Save: does not model the refusal of a state whose encoding is over four mebibytes, because encodings are not modelled.
- HubObject.Hub.Release: speaks of a release nothing else interferes with; its lock regions are separate steps of the hub's transition system, which leaves open whether the record is still the same one at the last of them.
- Runs in which a 64-bit lease counter wraps around: the theorems about the hub and its clients end before, and `AddKeepsInv` says exactly what can go wrong then.
- Resumable.ResumableStream.Write: speaks of a write nothing else interferes with; interference is covered by the transition system over the same regions.
- Resumable.ResumableStream.Replace: likewise alone on the stream; concurrent appends are covered by the transition system.
- ClusterAdmin.Manager: leaves out adding nodes and routes and removing access, whose validity is checked by the save alone.
- RouteResolution.SortRoutes: inserts route by route where the code calls the library's sort; both leave the one sorted arrangement.
