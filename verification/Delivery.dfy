/**
 One direction of a logical flow as a transition system: the sending endpoint
 with its writer, replacer and half-close threads, the physical channels, and
 the receiving endpoint.  Every action is one critical section of one
 endpoint, or one effect of a channel between two sections; the replay loop
 of a replacement is interleaved, chunk by chunk, with concurrent appends.

 The main result is that the bytes handed to the reader are always a prefix
 of the bytes accepted from the writer, over every run of failures and
 replacements whose replays end where their journal snapshot ended.
 */
module Delivery {
  import opened Common
  import opened ReplayJournal
  import opened StreamRegions

  /**
   A physical stream in this direction.  Both peers agreed that it starts at
   stream offset `start`; `carried` are the bytes it accepted, of which the
   receiver has read `consumed`.
   */
  datatype Channel = Channel(
    start: nat,
    carried: seq<byte>,
    consumed: nat,
    halfClose: bool,
    fin: bool,
    used: bool,
    installed: bool)
  {
    function Reach(): nat { start + |carried| }
  }

  /** The thread holding the write lock: a `Write` or a `CloseWrite`. */
  datatype Writer =
    | Idle
    | Writing(start: nat, end: nat)
    | Attempting(start: nat, end: nat, channel: ChannelId, at: nat, accepted: nat)
    | Settling(start: nat, end: nat, ack: nat)
    | Closing
    | SendingFin(channel: ChannelId)
    | FinAccepted(channel: ChannelId)

  /** The thread holding the replace lock: a `Replace` or a `DetachPhysical`. */
  datatype Replacer =
    | Resting
    | Detaching(awaited: bool)
    | Replaying(channel: ChannelId, offset: nat, snapshotEnd: nat, buffer: nat)
    | Publishing(channel: ChannelId, offset: nat, snapshotEnd: nat, fin: bool)

  /**
   `log` are all bytes ever accepted from the writer, `delivered` all bytes
   handed to the reader, and `leak` the furthest offset any replay that did
   not get published has put on a channel.
   */
  datatype System = System(
    log: seq<byte>,
    sender: Endpoint,
    writer: Writer,
    replacer: Replacer,
    channels: map<ChannelId, Channel>,
    receiver: Endpoint,
    delivered: seq<byte>,
    leak: nat)

  datatype Action =
    | StartWrite(payload: seq<byte>)
    | BeginAttempt
    | Accept(count: nat)
    | EndAttempt(failed: bool)
    | Settle
    | Return
    | LoseSender(channel: ChannelId)
    | BeginDetach
    | EndDetach
    | OpenChannel(channel: ChannelId, start: nat, halfClose: bool)
    | BeginReplace(channel: ChannelId, reverseStart: nat)
    | ReplayChunk
    | FailReplay(count: nat)
    | FailPublish
    | FinishReplay
    | Publish(reverseStart: nat)
    | BeginCloseWrite
    | CheckCloseWrite
    | SendFin(accepted: bool)
    | FinishFin
    | Acknowledge(offset: nat)
    | Install(channel: ChannelId, reverseEnd: nat, reverseFin: bool)
    | LoseReceiver
    | Deliver(count: nat)
    | LateRead(channel: ChannelId, count: nat)
    | CloseSender
    | CloseReceiver

  function Initial(senderCapacity: nat, receiverCapacity: nat, ackEvery: nat, halfClose: bool): (s: System)
    requires 0 < senderCapacity && 0 < receiverCapacity
  {
    System([], Fresh(senderCapacity, ackEvery, 0), Idle, Resting,
           map[0 := Channel(0, [], 0, halfClose, false, true, true)],
           Fresh(receiverCapacity, ackEvery, 0), [], 0)
  }

  /** The bytes the next replay chunk copies out of the journal. */
  function NextChunk(s: System): (bytes: seq<byte>)
    requires s.replacer.Replaying? && s.sender.journal.Valid()
  {
    if s.sender.journal.OffsetError(s.replacer.offset).Some? then []
    else s.sender.journal.Slice(s.replacer.offset, s.replacer.buffer)
  }

  // ---------------------------------------------------------------------
  // The writer: `Write`
  // ---------------------------------------------------------------------

  predicate CanStartWrite(s: System, payload: seq<byte>) {
    s.writer.Idle? && payload != [] && StartWriteError(s.sender, payload).None?
  }

  function DoStartWrite(s: System, payload: seq<byte>): (r: System) {
    s.(log := s.log + payload,
       sender := StreamRegions.StartWrite(s.sender, payload),
       writer := Writing(s.sender.journal.end, s.sender.journal.end + |payload|))
  }

  predicate CanBeginAttempt(s: System) {
    && s.writer.Writing? && s.sender.physical.Some?
    && s.writer.start <= s.sender.transmitted < s.writer.end
    && CanAttempt(s.sender, s.sender.physical.value, s.sender.transmitted)
  }

  function DoBeginAttempt(s: System): (r: System)
    requires CanBeginAttempt(s)
  {
    s.(sender := StreamRegions.BeginAttempt(s.sender, s.writer.end),
       writer := Attempting(s.writer.start, s.writer.end, s.sender.physical.value, s.sender.transmitted, 0))
  }

  predicate CanAccept(s: System, count: nat) {
    && s.writer.Attempting? && s.writer.channel in s.channels
    && s.writer.at + s.writer.accepted + count <= s.writer.end <= |s.log|
  }

  /** The channel takes the next `count` bytes of the payload in flight. */
  function DoAccept(s: System, count: nat): (r: System)
    requires CanAccept(s, count)
  {
    var from := s.writer.at + s.writer.accepted;
    var c := s.channels[s.writer.channel];
    s.(channels := s.channels[s.writer.channel := c.(carried := c.carried + s.log[from..from + count])],
       writer := s.writer.(accepted := s.writer.accepted + count))
  }

  predicate CanEndAttempt(s: System) {
    s.writer.Attempting? && s.writer.at <= s.writer.end
  }

  /** The physical write returns, reporting exactly the bytes the channel took. */
  function DoEndAttempt(s: System, failed: bool): (r: System)
    requires CanEndAttempt(s)
  {
    var r := StreamRegions.EndAttempt(s.sender, s.writer.channel, s.writer.at,
                                      s.writer.end - s.writer.at, s.writer.accepted, failed);
    s.(sender := r.endpoint, writer := Settling(s.writer.start, s.writer.end, r.deferredAck))
  }

  function DoSettle(s: System): (r: System)
    requires s.writer.Settling? && s.sender.journal.Valid()
  {
    s.(sender := if s.writer.ack == 0 then s.sender else DeferredAck(s.sender, s.writer.ack),
       writer := Writing(s.writer.start, s.writer.end))
  }

  // ---------------------------------------------------------------------
  // The replacer: `DetachPhysical` and `Replace`
  // ---------------------------------------------------------------------

  function DoBeginDetach(s: System): (r: System) {
    s.(sender := Detach(s.sender), replacer := Detaching(s.sender.attemptEnd != 0))
  }

  predicate CanEndDetach(s: System) {
    s.replacer.Detaching? && (s.replacer.awaited ==> !s.writer.Attempting? && !s.writer.Settling?)
  }

  predicate CanOpenChannel(s: System, channel: ChannelId, start: nat) {
    channel !in s.channels && start <= s.receiver.receiveOffset
  }

  /** Negotiation: both peers will resume this direction at `start`, an offset the receiver has. */
  function DoOpenChannel(s: System, channel: ChannelId, start: nat, halfClose: bool): (r: System) {
    s.(channels := s.channels[channel := Channel(start, [], 0, halfClose, false, false, false)])
  }

  predicate CanBeginReplace(s: System, channel: ChannelId, reverseStart: nat) {
    && s.replacer.Resting? && channel in s.channels && !s.channels[channel].used
    && ReplaceError(s.sender, s.channels[channel].start, reverseStart).None?
    && s.sender.journal.OffsetError(s.channels[channel].start).None?
  }

  /** The admission checks, the implied acknowledgement and the journal snapshot. */
  function DoBeginReplace(s: System, channel: ChannelId): (r: System)
    requires channel in s.channels && s.sender.journal.Valid()
  {
    var c := s.channels[channel];
    var journal := s.sender.journal.Ack(c.start);
    s.(sender := s.sender.(journal := journal),
       channels := s.channels[channel := c.(used := true)],
       replacer := Replaying(channel, c.start, journal.end, ReplayBuffer(|journal.retained|)))
  }

  predicate CanReplayChunk(s: System) {
    && s.replacer.Replaying? && s.replacer.channel in s.channels
    && s.replacer.offset < s.replacer.snapshotEnd
    && s.sender.journal.OffsetError(s.replacer.offset).None?
  }

  function DoReplayChunk(s: System): (r: System)
    requires CanReplayChunk(s) && s.sender.journal.Valid()
  {
    var c := s.channels[s.replacer.channel];
    var bytes := NextChunk(s);
    s.(channels := s.channels[s.replacer.channel := c.(carried := c.carried + bytes)],
       replacer := Replaying(s.replacer.channel, s.replacer.offset + |bytes|,
                             s.replacer.snapshotEnd, s.replacer.buffer))
  }

  predicate CanFailReplay(s: System, count: nat)
    requires s.sender.journal.Valid()
  {
    && s.replacer.Replaying? && s.replacer.channel in s.channels
    && s.replacer.offset < s.replacer.snapshotEnd && count <= |NextChunk(s)|
  }

  /** The candidate is closed after taking `count` bytes of the current chunk. */
  function DoFailReplay(s: System, count: nat): (r: System)
    requires s.sender.journal.Valid() && CanFailReplay(s, count)
  {
    var c := s.channels[s.replacer.channel];
    s.(channels := s.channels[s.replacer.channel := c.(carried := c.carried + NextChunk(s)[..count])],
       replacer := Resting, leak := Max(s.leak, s.replacer.offset + count))
  }

  /** The candidate is closed after the replay: its half-close failed or it may not be published. */
  function DoFailPublish(s: System): (r: System)
    requires s.replacer.Publishing?
  {
    s.(replacer := Resting, leak := Max(s.leak, s.replacer.offset))
  }

  predicate CanFinishReplay(s: System) {
    && s.replacer.Replaying? && s.replacer.channel in s.channels
    && s.replacer.snapshotEnd <= s.replacer.offset
  }

  /** The replay loop ends; a half-close already requested is repeated on the candidate. */
  function DoFinishReplay(s: System): (r: System)
    requires CanFinishReplay(s)
  {
    var c := s.channels[s.replacer.channel];
    s.(channels := s.channels[s.replacer.channel := c.(fin := s.sender.localFin && c.halfClose)],
       replacer := Publishing(s.replacer.channel, s.replacer.offset, s.replacer.snapshotEnd, s.sender.localFin))
  }

  predicate CanPublish(s: System, reverseStart: nat) {
    s.replacer.Publishing? && PublishError(s.sender, reverseStart).None?
  }

  function DoPublish(s: System, reverseStart: nat): (r: System)
    requires CanPublish(s, reverseStart)
  {
    s.(sender := StreamRegions.Publish(s.sender, s.replacer.channel, s.replacer.snapshotEnd,
                                       s.replacer.fin, reverseStart),
       replacer := Resting)
  }

  // ---------------------------------------------------------------------
  // Half-close: `CloseWrite`
  // ---------------------------------------------------------------------

  predicate CanBeginCloseWrite(s: System) {
    s.writer.Idle? && !s.sender.closed && !FinSettled(s.sender)
  }

  function DoBeginCloseWrite(s: System): (r: System) {
    s.(sender := StartCloseWrite(s.sender), writer := Closing)
  }

  predicate CanCheckCloseWrite(s: System) {
    && s.writer.Closing? && s.sender.physical.Some?
    && s.sender.journal.end <= s.sender.transmitted && !s.sender.finTransmitted
  }

  function DoCheckCloseWrite(s: System): (r: System)
    requires CanCheckCloseWrite(s)
  {
    s.(writer := SendingFin(s.sender.physical.value))
  }

  predicate CanSendFin(s: System) {
    && s.writer.SendingFin? && s.writer.channel in s.channels
    && s.channels[s.writer.channel].halfClose
  }

  function DoSendFin(s: System, accepted: bool): (r: System)
    requires CanSendFin(s)
  {
    if accepted then
      var c := s.channels[s.writer.channel];
      s.(channels := s.channels[s.writer.channel := c.(fin := true)], writer := FinAccepted(s.writer.channel))
    else s.(writer := Closing)
  }

  function DoFinishFin(s: System): (r: System)
    requires s.writer.FinAccepted?
  {
    s.(sender := FinSent(s.sender, s.writer.channel), writer := Idle)
  }

  // ---------------------------------------------------------------------
  // The receiver: `Replace` and `Read`
  // ---------------------------------------------------------------------

  predicate CanInstall(s: System, channel: ChannelId) {
    && channel in s.channels && !s.channels[channel].installed
    && s.channels[channel].consumed == 0
    && PublishError(s.receiver, s.channels[channel].start).None?
  }

  function DoInstall(s: System, channel: ChannelId, reverseEnd: nat, reverseFin: bool): (r: System)
    requires CanInstall(s, channel)
  {
    var c := s.channels[channel];
    s.(receiver := StreamRegions.Publish(s.receiver, channel, reverseEnd, reverseFin, c.start),
       channels := s.channels[channel := c.(installed := true)])
  }

  predicate CanDeliver(s: System, count: nat) {
    && 0 < count && !s.receiver.closed
    && s.receiver.physical.Some? && s.receiver.physical.value in s.channels
    && var c := s.channels[s.receiver.physical.value];
      c.consumed + count <= |c.carried|
  }

  function DoDeliver(s: System, count: nat): (r: System)
    requires CanDeliver(s, count)
  {
    var channel := s.receiver.physical.value;
    var c := s.channels[channel];
    var r := ReadChunk(s.receiver, channel, count);
    s.(receiver := r.endpoint,
       channels := s.channels[channel := c.(consumed := c.consumed + count)],
       delivered := s.delivered + c.carried[c.consumed + r.dropped..c.consumed + r.dropped + r.kept])
  }

  predicate CanLateRead(s: System, channel: ChannelId, count: nat) {
    && channel in s.channels && s.receiver.physical != Some(channel) && 0 < count
    && s.channels[channel].consumed + count <= |s.channels[channel].carried|
  }

  /** A read that returns after its channel was replaced: its bytes are dropped. */
  function DoLateRead(s: System, channel: ChannelId, count: nat): (r: System)
    requires CanLateRead(s, channel, count)
  {
    var c := s.channels[channel];
    s.(channels := s.channels[channel := c.(consumed := c.consumed + count)])
  }

  // ---------------------------------------------------------------------
  // Steps and runs
  // ---------------------------------------------------------------------

  predicate Enabled(s: System, a: Action)
    requires s.sender.journal.Valid()
  {
    match a
    case StartWrite(payload) => CanStartWrite(s, payload)
    case BeginAttempt => CanBeginAttempt(s)
    case Accept(count) => CanAccept(s, count)
    case EndAttempt(_) => CanEndAttempt(s)
    case Settle => s.writer.Settling?
    case Return => s.writer.Writing? || s.writer.Closing?
    case LoseSender(_) => true
    case BeginDetach => s.replacer.Resting? && !s.sender.closed
    case EndDetach => CanEndDetach(s)
    case OpenChannel(channel, start, _) => CanOpenChannel(s, channel, start)
    case BeginReplace(channel, reverseStart) => CanBeginReplace(s, channel, reverseStart)
    case ReplayChunk => CanReplayChunk(s)
    case FailReplay(count) => CanFailReplay(s, count)
    case FailPublish => s.replacer.Publishing?
    case FinishReplay => CanFinishReplay(s)
    case Publish(reverseStart) => CanPublish(s, reverseStart)
    case BeginCloseWrite => CanBeginCloseWrite(s)
    case CheckCloseWrite => CanCheckCloseWrite(s)
    case SendFin(_) => CanSendFin(s)
    case FinishFin => s.writer.FinAccepted?
    case Acknowledge(offset) => offset <= s.receiver.receiveOffset
    case Install(channel, _, _) => CanInstall(s, channel)
    case LoseReceiver => true
    case Deliver(count) => CanDeliver(s, count)
    case LateRead(channel, count) => CanLateRead(s, channel, count)
    case CloseSender => true
    case CloseReceiver => true
  }

  function Next(s: System, a: Action): (r: System)
    requires s.sender.journal.Valid() && Enabled(s, a)
  {
    match a
    case StartWrite(payload) => DoStartWrite(s, payload)
    case BeginAttempt => DoBeginAttempt(s)
    case Accept(count) => DoAccept(s, count)
    case EndAttempt(failed) => DoEndAttempt(s, failed)
    case Settle => DoSettle(s)
    case Return => s.(writer := Idle)
    case LoseSender(channel) => s.(sender := MarkUnavailable(s.sender, channel))
    case BeginDetach => DoBeginDetach(s)
    case EndDetach => s.(replacer := Resting)
    case OpenChannel(channel, start, halfClose) => DoOpenChannel(s, channel, start, halfClose)
    case BeginReplace(channel, _) => DoBeginReplace(s, channel)
    case ReplayChunk => DoReplayChunk(s)
    case FailReplay(count) => DoFailReplay(s, count)
    case FailPublish => DoFailPublish(s)
    case FinishReplay => DoFinishReplay(s)
    case Publish(reverseStart) => DoPublish(s, reverseStart)
    case BeginCloseWrite => DoBeginCloseWrite(s)
    case CheckCloseWrite => DoCheckCloseWrite(s)
    case SendFin(accepted) => DoSendFin(s, accepted)
    case FinishFin => DoFinishFin(s)
    case Acknowledge(offset) => s.(sender := Ack(s.sender, offset))
    case Install(channel, reverseEnd, reverseFin) => DoInstall(s, channel, reverseEnd, reverseFin)
    case LoseReceiver => s.(receiver := Detach(s.receiver))
    case Deliver(count) => DoDeliver(s, count)
    case LateRead(channel, count) => DoLateRead(s, channel, count)
    case CloseSender => s.(sender := Close(s.sender))
    case CloseReceiver => s.(receiver := Close(s.receiver))
  }

  /** Every action of the run is enabled when its turn comes. */
  ghost predicate Legal(s: System, run: seq<Action>)
    decreases |run|
  {
    run == [] || (s.sender.journal.Valid() && Enabled(s, run[0]) && Legal(Next(s, run[0]), run[1..]))
  }

  ghost function After(s: System, run: seq<Action>): (r: System)
    requires Legal(s, run)
    decreases |run|
  {
    if run == [] then s else After(Next(s, run[0]), run[1..])
  }

  // ---------------------------------------------------------------------
  // The invariant
  // ---------------------------------------------------------------------

  ghost predicate ChannelOk(end: nat, received: nat, c: Channel) {
    && c.start <= received
    && c.Reach() <= end
    && c.consumed <= |c.carried|
    && (!c.used ==> c.carried == [] && !c.fin)
  }

  ghost predicate ChannelsOk(s: System) {
    forall c :: c in s.channels ==>
      ChannelOk(|s.log|, s.receiver.receiveOffset, s.channels[c])
  }

  /** The write lock holder's view of the channel it is writing to. */
  ghost predicate WriterOk(s: System) {
    && (s.writer.Attempting? <==> s.sender.attemptEnd != 0)
    && (!s.writer.Attempting? ==> s.sender.pendingAck == 0)
    && match s.writer
       case Idle => true
       case Writing(start, end) => start < end <= |s.log| && !s.sender.localFin
       case Attempting(start, end, channel, at, accepted) =>
         && start <= at < end <= |s.log| && at + accepted <= end
         && !s.sender.localFin && s.sender.attemptEnd == end
         && channel in s.channels && s.channels[channel].used
         && s.channels[channel].Reach() == at + accepted
         && (s.sender.transmitted == at || end <= s.sender.transmitted)
       case Settling(start, end, ack) =>
         start < end <= |s.log| && !s.sender.localFin && ack <= s.receiver.receiveOffset
       case Closing => s.sender.localFin
       case SendingFin(channel) =>
         && s.sender.localFin && channel in s.channels && s.channels[channel].used
         && s.channels[channel].Reach() == |s.log|
       case FinAccepted(channel) =>
         s.sender.localFin && channel in s.channels && s.channels[channel].fin
  }

  ghost predicate SenderOk(s: System) {
    && s.sender.journal.Valid()
    && s.sender.journal.end == |s.log|
    && s.sender.journal.closed == s.sender.closed
    && s.sender.transmitted <= |s.log|
    && s.sender.journal.base <= s.receiver.receiveOffset
    && s.sender.pendingAck <= s.receiver.receiveOffset
    && (s.sender.closed ==> s.sender.physical.None?)
    && (s.sender.physical.Some? ==> PhysicalOk(s, s.sender.physical.value))
  }

  /** The published channel has carried exactly the transmitted bytes. */
  ghost predicate PhysicalOk(s: System, channel: ChannelId) {
    && channel in s.channels && s.channels[channel].used
    && (if s.writer.Attempting? && s.writer.channel == channel
        then s.sender.transmitted == s.writer.at
        else s.channels[channel].Reach() == s.sender.transmitted)
    && (s.writer.Attempting? && s.writer.channel != channel ==> s.writer.end <= s.sender.transmitted)
    && (s.sender.finTransmitted ==> s.channels[channel].fin || !s.channels[channel].halfClose)
  }

  /** The replacement candidate has carried exactly the replayed bytes. */
  ghost predicate CandidateOk(s: System, channel: ChannelId, offset: nat, snapshotEnd: nat) {
    && channel in s.channels && s.channels[channel].used
    && s.channels[channel].Reach() == offset
    && s.sender.transmitted <= snapshotEnd <= |s.log|
    && (s.writer.Attempting? ==> s.writer.channel != channel && s.writer.end <= snapshotEnd)
    && (s.writer.SendingFin? || s.writer.FinAccepted? ==> s.writer.channel != channel)
  }

  ghost predicate ReplacerOk(s: System) {
    && (!s.replacer.Resting? ==> s.sender.physical.None?)
    && match s.replacer
       case Resting => true
       case Detaching(awaited) => !awaited ==> !s.writer.Attempting?
       case Replaying(channel, offset, snapshotEnd, buffer) =>
         && CandidateOk(s, channel, offset, snapshotEnd) && 1 <= buffer
         && !s.channels[channel].fin
       case Publishing(channel, offset, snapshotEnd, fin) =>
         && CandidateOk(s, channel, offset, snapshotEnd) && snapshotEnd <= offset
         && (fin ==> s.sender.localFin && (s.channels[channel].fin || !s.channels[channel].halfClose))
  }

  ghost predicate ReceiverOk(s: System) {
    && s.receiver.receiveOffset <= |s.log|
    && (s.receiver.physical.Some? ==>
          && s.receiver.physical.value in s.channels
          && var c := s.channels[s.receiver.physical.value];
            c.installed && c.start + c.consumed + s.receiver.discard == s.receiver.receiveOffset)
  }

  /** How far any channel of an open sender can have carried the stream. */
  ghost function Frontier(s: System): (n: nat) {
    Max(Max(s.sender.transmitted, s.leak),
        Max(if s.writer.Attempting? then s.writer.at + s.writer.accepted else 0,
            if s.replacer.Replaying? || s.replacer.Publishing? then s.replacer.offset else 0))
  }

  ghost predicate FrontierOk(s: System) {
    !s.sender.closed ==>
      && s.receiver.receiveOffset <= Frontier(s)
      && forall c :: c in s.channels && s.channels[c].used ==> s.channels[c].Reach() <= Frontier(s)
  }

  /** The offsets, flags and locks of all parties agree. */
  ghost predicate Control(s: System) {
    SenderOk(s) && WriterOk(s) && ReplacerOk(s) && ReceiverOk(s) && FrontierOk(s) && ChannelsOk(s)
  }

  /** A channel carries the slice of the log that begins at its agreed start. */
  ghost predicate CarriesLog(log: seq<byte>, c: Channel) {
    c.Reach() <= |log| && c.carried == log[c.start..c.Reach()]
  }

  ghost predicate RetainsLog(log: seq<byte>, j: JournalView) {
    !j.closed ==> j.base <= |log| && j.retained == log[j.base..]
  }

  /** The journal, every channel and the reader hold pieces of one log. */
  ghost predicate Content(s: System) {
    && RetainsLog(s.log, s.sender.journal)
    && s.delivered <= s.log && |s.delivered| == s.receiver.receiveOffset
    && forall c :: c in s.channels ==> CarriesLog(s.log, s.channels[c])
  }

  ghost predicate Inv(s: System) {
    Control(s) && Content(s)
  }

  /** A half-closed channel has carried every byte there will ever be. */
  ghost predicate HalfClosed(s: System) {
    forall c :: c in s.channels && s.channels[c].fin ==>
      s.sender.localFin && s.channels[c].Reach() == |s.log|
  }

  /** A published replay ended where its journal snapshot ended. */
  predicate Exact(s: System, a: Action) {
    a.Publish? && s.replacer.Publishing? ==> s.replacer.offset == s.replacer.snapshotEnd
  }
}
