/**
 The critical sections of a resumable stream, as functions on the value of its
 fields.  `ResumableStream` executes exactly these sections; the delivery
 system interleaves them with a peer, failing channels and replacements.
 */
module StreamRegions {
  import opened Common
  import opened ReplayJournal

  /** `replayCopyBufferSize`: the most bytes one replay chunk copies. */
  const REPLAY_COPY_BUFFER: nat := 32 * 1024

  datatype StreamError =
    | Closed
    | State
    | ClosedPipe
    | JournalFailure(error: JournalError)
    | NoProgress
    | PhysicalFailure
    | Cancelled
    | Config

  /** Channels are named by numbers; a physical stream is never reused. */
  type ChannelId = nat

  /**
   The mutable fields of one endpoint.  `attemptEnd` is zero when no physical
   write is in flight, `pendingAck` is zero when no acknowledgement is staged.
   */
  datatype Endpoint = Endpoint(
    journal: JournalView,
    physical: Option<ChannelId>,
    transmitted: nat,
    receiveOffset: nat,
    lastNotified: nat,
    localFin: bool,
    finTransmitted: bool,
    discard: nat,
    attemptEnd: nat,
    pendingAck: nat,
    ackEvery: nat,
    closed: bool)

  function Fresh(capacity: nat, ackEvery: nat, initial: ChannelId): (e: Endpoint) {
    Endpoint(JournalView(0, 0, [], capacity, false), Some(initial), 0, 0, 0, false, false, 0, 0, 0, ackEvery, false)
  }

  // ---------------------------------------------------------------------
  // Write
  // ---------------------------------------------------------------------

  function StartWriteError(e: Endpoint, payload: seq<byte>): (r: Option<StreamError>) {
    if e.closed then Some(Closed)
    else if e.localFin then Some(ClosedPipe)
    else match e.journal.AppendError(payload)
      case Some(error) => Some(JournalFailure(error))
      case None => None
  }

  function StartWrite(e: Endpoint, payload: seq<byte>): (r: Endpoint) {
    if StartWriteError(e, payload).Some? then e else e.(journal := e.journal.Append(payload))
  }

  /** A new stream takes any payload that fits and can send it at once on the stream it was given. */
  lemma FreshIsReady(capacity: nat, ackEvery: nat, initial: ChannelId, payload: seq<byte>)
    requires |payload| <= MAX_SEQUENCE
    ensures var e := Fresh(capacity, ackEvery, initial);
            && (StartWriteError(e, payload).None? <==> |payload| <= capacity)
            && (|payload| <= capacity ==>
                  CanAttempt(StartWrite(e, payload), initial, 0) && StartWrite(e, payload).journal.retained == payload)
            && ReadChunk(e, initial, |payload|).kept == |payload|
  {
  }

  /** The recheck made before a physical write is started. */
  predicate CanAttempt(e: Endpoint, channel: ChannelId, at: nat) {
    !e.closed && e.physical == Some(channel) && e.transmitted == at
  }

  function BeginAttempt(e: Endpoint, end: nat): (r: Endpoint) {
    e.(attemptEnd := end)
  }

  /** What a returned physical write leads to. */
  datatype AttemptResult = AttemptResult(
    endpoint: Endpoint,
    accepted: nat,
    failed: bool,
    deferredAck: nat,
    invalidAck: bool)

  /** A write count outside the payload is a protocol failure that counts nothing. */
  function SaneCount(requested: nat, n: int): (r: nat) {
    if 0 <= n <= requested then n else 0
  }

  /** The bytes taken count only while no other replacement has been published since. */
  predicate AttemptCounts(e: Endpoint, channel: ChannelId, at: nat) {
    !e.closed && (e.physical == Some(channel) || e.physical == None) && e.transmitted == at
  }

  predicate AttemptOverflows(e: Endpoint, channel: ChannelId, at: nat, count: nat) {
    AttemptCounts(e, channel, at) && e.transmitted <= MAX_SEQUENCE && count > MAX_SEQUENCE - e.transmitted
  }

  /** The accounting half: `transmitted` moves by the bytes taken. */
  function CountAttempt(e: Endpoint, channel: ChannelId, at: nat, accepted: nat): (r: Endpoint) {
    if AttemptCounts(e, channel, at) then e.(transmitted := e.transmitted + accepted) else e
  }

  /** The settling half: the attempt is cleared and a staged acknowledgement is released or refused. */
  function SettleAttempt(e: Endpoint, requested: nat, accepted: nat, failing: bool): (r: AttemptResult) {
    if e.attemptEnd == 0 then AttemptResult(e, accepted, failing, 0, false)
    else AttemptResult(
      e.(attemptEnd := 0, pendingAck := 0), accepted, failing,
      if e.pendingAck != 0 && e.pendingAck <= e.transmitted then e.pendingAck else 0,
      e.pendingAck > e.transmitted && (failing || accepted != requested))
  }

  function EndAttempt(e: Endpoint, channel: ChannelId, at: nat, requested: nat, n: int, failed: bool)
    : (r: AttemptResult)
  {
    var count := SaneCount(requested, n);
    var overflow := AttemptOverflows(e, channel, at, count);
    var accepted := if overflow then 0 else count;
    SettleAttempt(CountAttempt(e, channel, at, accepted), requested, accepted,
                  failed || !(0 <= n <= requested) || overflow)
  }

  /** A returned write moves `transmitted` by what was taken, or not at all, and clears the attempt. */
  lemma EndAttemptAccounts(e: Endpoint, channel: ChannelId, at: nat, requested: nat, n: int, failed: bool)
    requires at + requested <= MAX_SEQUENCE && e.attemptEnd != 0
    ensures var count := SaneCount(requested, n);
            var r := EndAttempt(e, channel, at, requested, n, failed);
            && r.endpoint == e.(transmitted := if AttemptCounts(e, channel, at) then at + count else e.transmitted,
                                attemptEnd := 0, pendingAck := 0)
            && (r.deferredAck == e.pendingAck <= r.endpoint.transmitted || r.deferredAck == 0)
            && r.accepted == count && r.failed == (failed || !(0 <= n <= requested))
  {
  }

  /** How many bytes of a write's range have been transmitted. */
  function WrittenForRange(start: nat, end: nat, transmitted: nat): (n: nat)
    requires start <= end
    ensures n <= end - start && start + n == Max(start, Min(end, transmitted))
  {
    if transmitted <= start then 0
    else if transmitted >= end then end - start
    else transmitted - start
  }

  // ---------------------------------------------------------------------
  // Acknowledgement
  // ---------------------------------------------------------------------

  datatype AckVerdict = AckClosed | AckStaged | AckRefused | AckRetire

  function AckVerdictOf(e: Endpoint, offset: nat): (v: AckVerdict) {
    if e.closed then AckClosed
    else if offset > e.transmitted then
      if e.attemptEnd != 0 && offset <= e.attemptEnd then AckStaged else AckRefused
    else AckRetire
  }

  /** The effect of `Ack`: staged while the write is in flight, retired otherwise. */
  function Ack(e: Endpoint, offset: nat): (r: Endpoint)
    requires e.journal.Valid()
  {
    match AckVerdictOf(e, offset)
    case AckStaged => e.(pendingAck := Max(e.pendingAck, offset))
    case AckRetire => e.(journal := e.journal.Ack(offset))
    case _ => e
  }

  /** A deferred acknowledgement below the base is already covered. */
  function DeferredAck(e: Endpoint, offset: nat): (r: Endpoint)
    requires e.journal.Valid()
  {
    if offset <= e.journal.base then e else e.(journal := e.journal.Ack(offset))
  }

  /**
   What an acknowledgement up to `offset` is for: the journal keeps the bytes
   from `offset` on and nothing else, and takes exactly what then fits in its
   capacity and in the sequence range.
   */
  ghost predicate Freed(before: JournalView, after: JournalView, offset: nat) {
    && before.base <= offset <= before.base + |before.retained|
    && after.base == offset && after.end == before.end && after.retained == before.retained[offset - before.base..]
    && after.capacity == before.capacity
    && forall payload: seq<byte> :: after.AppendError(payload).None? <==>
         |payload| <= before.capacity - (before.end - offset) && |payload| <= MAX_SEQUENCE - before.end
  }

  lemma RetiringFrees(j: JournalView, offset: nat)
    requires j.Valid() && !j.closed && j.base <= offset <= j.end
    ensures Freed(j, j.Ack(offset), offset)
  {
    var after := j.Ack(offset);
    assert |after.retained| == j.end - offset;
  }

  /**
   An acknowledgement of transmitted bytes frees them at once, and a later
   write is accepted exactly when it fits what is free then.
   */
  lemma AckFrees(e: Endpoint, offset: nat, payload: seq<byte>)
    requires e.journal.Valid() && !e.closed && !e.journal.closed
    requires e.journal.base <= offset <= e.transmitted && offset <= e.journal.end
    ensures Freed(e.journal, Ack(e, offset).journal, offset)
    ensures Ack(e, offset) == e.(journal := Ack(e, offset).journal)
    ensures StartWriteError(Ack(e, offset), payload).None? <==>
              && !e.localFin && |payload| <= e.journal.capacity - (e.journal.end - offset)
              && |payload| <= MAX_SEQUENCE - e.journal.end
  {
    RetiringFrees(e.journal, offset);
    assert StartWriteError(Ack(e, offset), payload).None? <==>
             !e.localFin && Ack(e, offset).journal.AppendError(payload).None?;
  }

  /** Acknowledgements in the order they come in. */
  function AckAll(e: Endpoint, offsets: seq<nat>): (r: Endpoint)
    requires e.journal.Valid()
    ensures r.journal.Valid()
    decreases |offsets|
  {
    if offsets == [] then e else AckAll(Ack(e, offsets[0]), offsets[1..])
  }

  function Highest(least: nat, offsets: seq<nat>): (r: nat)
    ensures r >= least && (forall k :: 0 <= k < |offsets| ==> offsets[k] <= r) && (r == least || r in offsets)
    decreases |offsets|
  {
    if offsets == [] then least else Highest(Max(least, offsets[0]), offsets[1..])
  }

  /** Acknowledgements of the write in flight are kept as their maximum, in any order, and free nothing yet. */
  lemma {:induction false} StagedAcksKeepHighest(e: Endpoint, offsets: seq<nat>)
    requires e.journal.Valid() && !e.closed && e.attemptEnd != 0
    requires forall k :: 0 <= k < |offsets| ==> e.transmitted < offsets[k] <= e.attemptEnd
    ensures AckAll(e, offsets) == e.(pendingAck := Highest(e.pendingAck, offsets))
    decreases |offsets|
  {
    if offsets != [] {
      var next := Ack(e, offsets[0]);
      assert next == e.(pendingAck := Max(e.pendingAck, offsets[0]));
      StagedAcksKeepHighest(next, offsets[1..]);
    }
  }

  /**
   Acknowledgements that overtake the accounting of their own write are worth
   as much as if they had come after it: once the write has settled with
   enough bytes taken, the journal is freed up to the highest of them.  When
   fewer bytes were taken nothing is freed, and a write that failed or fell
   short reports the peer's acknowledgement as invalid.
   */
  lemma StagedAcksFree(e: Endpoint, offsets: seq<nat>, channel: ChannelId, at: nat, requested: nat, n: int,
                       failed: bool)
    requires e.journal.Valid() && !e.closed && !e.journal.closed && e.pendingAck == 0
    requires e.attemptEnd == at + requested <= e.journal.end
    requires e.transmitted == at && (e.physical == Some(channel) || e.physical == None)
    requires offsets != [] && forall k :: 0 <= k < |offsets| ==> at < offsets[k] <= e.attemptEnd
    ensures var taken := if 0 <= n <= requested then n else 0;
            var top := Highest(0, offsets);
            var r := EndAttempt(AckAll(e, offsets), channel, at, requested, n, failed);
            && r.endpoint.journal == e.journal && r.endpoint.transmitted == at + taken
            && (e.journal.base <= top <= at + taken ==>
                  && r.deferredAck == top && !r.invalidAck
                  && Freed(e.journal, DeferredAck(r.endpoint, top).journal, top))
            && (top > at + taken ==> r.deferredAck == 0 && (r.invalidAck <==> failed || n != requested))
  {
    assert 0 < offsets[0] <= e.attemptEnd;
    StagedAcksKeepHighest(e, offsets);
    var top := Highest(0, offsets);
    var staged := e.(pendingAck := top);
    assert offsets[0] <= top && top in offsets;
    EndAttemptAccounts(staged, channel, at, requested, n, failed);
    if e.journal.base <= top {
      RetiringFrees(e.journal, top);
      assert e.journal.Ack(e.journal.base) == e.journal;
    }
  }

  // ---------------------------------------------------------------------
  // Losing and replacing the physical stream
  // ---------------------------------------------------------------------

  function MarkUnavailable(e: Endpoint, failed: ChannelId): (r: Endpoint) {
    if e.closed || e.physical != Some(failed) then e
    else e.(physical := None, finTransmitted := e.finTransmitted && !e.localFin)
  }

  function Detach(e: Endpoint): (r: Endpoint) {
    if e.closed then e else e.(physical := None)
  }

  /** The checks `Replace` makes before it touches the candidate. */
  function ReplaceError(e: Endpoint, peerOffset: nat, receiveStart: nat): (r: Option<StreamError>) {
    if e.closed then Some(Closed)
    else if e.physical != None || receiveStart > e.receiveOffset || peerOffset > e.transmitted then Some(State)
    else None
  }

  /** The size of the copy buffer chosen from the journal snapshot. */
  function ReplayBuffer(buffered: nat): (n: nat)
    ensures 1 <= n <= REPLAY_COPY_BUFFER
  {
    Min(REPLAY_COPY_BUFFER, Max(1, buffered))
  }

  function PublishError(e: Endpoint, receiveStart: nat): (r: Option<StreamError>) {
    if e.closed || e.physical != None || receiveStart > e.receiveOffset then Some(Closed) else None
  }

  function Publish(e: Endpoint, next: ChannelId, snapshotEnd: nat, fin: bool, receiveStart: nat): (r: Endpoint) {
    if PublishError(e, receiveStart).Some? then e
    else e.(physical := Some(next), transmitted := snapshotEnd, finTransmitted := fin,
            discard := e.receiveOffset - receiveStart)
  }

  // ---------------------------------------------------------------------
  // Read
  // ---------------------------------------------------------------------

  /** `dropped` bytes of the chunk fall to the discard counter, `kept` are delivered. */
  datatype ReadResult = ReadResult(
    endpoint: Endpoint,
    error: Option<StreamError>,
    dropped: nat,
    kept: nat,
    notify: bool)

  function ReadChunk(e: Endpoint, channel: ChannelId, n: nat): (r: ReadResult)
    ensures r.dropped + r.kept <= n
  {
    if e.closed then ReadResult(e, Some(Closed), 0, 0, false)
    else if e.physical != Some(channel) then ReadResult(e, Some(State), 0, 0, false)
    else
      var dropped := Min(n, e.discard);
      var kept := n - dropped;
      var skipped := e.(discard := e.discard - dropped);
      if kept > MAX_SEQUENCE - e.receiveOffset then ReadResult(skipped, Some(State), dropped, 0, false)
      else
        var offset := e.receiveOffset + kept;
        var notify := e.ackEvery != 0 && offset - e.lastNotified >= e.ackEvery;
        ReadResult(
          skipped.(receiveOffset := offset, lastNotified := if notify then offset else e.lastNotified),
          None, dropped, kept, notify)
  }

  // ---------------------------------------------------------------------
  // Half-close and close
  // ---------------------------------------------------------------------

  /** `CloseWrite` has nothing left to do. */
  predicate FinSettled(e: Endpoint) {
    e.localFin && e.finTransmitted
  }

  function StartCloseWrite(e: Endpoint): (r: Endpoint) {
    if e.closed then e else e.(localFin := true)
  }

  function FinSent(e: Endpoint, channel: ChannelId): (r: Endpoint) {
    if e.physical == Some(channel) then e.(finTransmitted := true) else e
  }

  function Close(e: Endpoint): (r: Endpoint) {
    if e.closed then e else e.(closed := true, physical := None, journal := e.journal.Close())
  }

  /**
   A half-close is done once the stream it was sent on is still the current
   one, and then stays done; a failure of that stream undoes it, so that the
   next `CloseWrite` sends it again, and a late answer of the failed stream
   counts for nothing.
   */
  lemma FinIsPerStream(e: Endpoint, channel: ChannelId)
    requires !e.closed && e.physical == Some(channel) && e.localFin
    ensures var sent, lost := FinSent(e, channel), MarkUnavailable(FinSent(e, channel), channel);
            && FinSettled(sent) && StartCloseWrite(sent) == sent
            && lost.physical == None && !FinSettled(lost) && FinSent(lost, channel) == lost
            && lost == e.(physical := None, finTransmitted := false)
  {
  }

  /** A half-close ends writing for good, on this stream and on every later one. */
  lemma HalfCloseEndsWriting(e: Endpoint, channel: ChannelId, payload: seq<byte>)
    requires !e.closed
    ensures StartCloseWrite(e) == e.(localFin := true)
    ensures StartWriteError(StartCloseWrite(e), payload) == Some(ClosedPipe)
    ensures StartWriteError(FinSent(MarkUnavailable(StartCloseWrite(e), channel), channel), payload) == Some(ClosedPipe)
  {
  }

  /** After a close nothing is accepted, sent, acknowledged, read or replaced any more, and nothing is retained. */
  lemma CloseIsFinal(e: Endpoint, payload: seq<byte>, channel: ChannelId, at: nat, n: nat)
    requires e.journal.Valid()
    ensures var c := Close(e);
            && c.closed && (!e.closed ==> c.physical == None && c.journal.retained == [])
            && StartWriteError(c, payload) == Some(Closed) && StartWrite(c, payload) == c
            && !CanAttempt(c, channel, at) && ReadChunk(c, channel, n).error == Some(Closed)
            && AckVerdictOf(c, n) == AckClosed && MarkUnavailable(c, channel) == c && Detach(c) == c
            && ReplaceError(c, n, at).Some? && PublishError(c, n).Some?
            && StartCloseWrite(c) == c && Close(c) == c
  {
  }

  /**
   A replacement can be published exactly on an open stream that has none and
   has received at least what the peer will repeat; from then on a read of it
   delivers what the stream has not had yet and drops the rest.
   */
  lemma ReplacementSkipsReceived(e: Endpoint, next: ChannelId, snapshotEnd: nat, fin: bool, receiveStart: nat, n: nat)
    requires e.receiveOffset + n <= MAX_SEQUENCE
    ensures PublishError(e, receiveStart).None? <==> !e.closed && e.physical == None && receiveStart <= e.receiveOffset
    ensures PublishError(e, receiveStart).None? ==>
              var r := ReadChunk(Publish(e, next, snapshotEnd, fin, receiveStart), next, n);
              && r.error.None? && r.dropped + r.kept == n
              && r.kept == Max(0, receiveStart + n - e.receiveOffset)
              && r.endpoint.receiveOffset == Max(e.receiveOffset, receiveStart + n)
  {
  }

  // ---------------------------------------------------------------------
  // Notification
  // ---------------------------------------------------------------------

  /** The chunks of a channel, read one after the other. */
  function ReadAll(e: Endpoint, channel: ChannelId, chunks: seq<nat>): (r: Endpoint)
    decreases |chunks|
  {
    if chunks == [] then e else ReadAll(ReadChunk(e, channel, chunks[0]).endpoint, channel, chunks[1..])
  }

  /** How often the reads of these chunks notify the peer. */
  function Notices(e: Endpoint, channel: ChannelId, chunks: seq<nat>): (n: nat)
    decreases |chunks|
  {
    if chunks == [] then 0
    else
      var r := ReadChunk(e, channel, chunks[0]);
      (if r.notify then 1 else 0) + Notices(r.endpoint, channel, chunks[1..])
  }

  /** The peer has not been told of the last bytes received, but of all up to fewer than `ackEvery` ago. */
  predicate ToldEnough(e: Endpoint) {
    e.lastNotified <= e.receiveOffset && (e.ackEvery != 0 ==> e.receiveOffset - e.lastNotified < e.ackEvery)
  }

  /** A read tells the peer exactly when what it has not been told of has grown to `ackEvery` bytes. */
  lemma ReadNotifies(e: Endpoint, channel: ChannelId, n: nat)
    requires ToldEnough(e)
    ensures var r := ReadChunk(e, channel, n);
            && ToldEnough(r.endpoint) && r.endpoint.ackEvery == e.ackEvery
            && r.endpoint.receiveOffset == e.receiveOffset + r.kept
            && (r.notify <==> e.ackEvery != 0 && e.receiveOffset + r.kept >= e.lastNotified + e.ackEvery)
            && r.endpoint.lastNotified == if r.notify then e.receiveOffset + r.kept else e.lastNotified
  {
  }

  lemma Paced(every: nat, told: bool, before: nat, next: nat, after: nat, rest: nat)
    requires next >= before + (if told then every else 0) && after >= next + every * rest
    ensures after >= before + every * ((if told then 1 else 0) + rest)
  {
    assert every * (1 + rest) == every + every * rest;
  }

  /**
   Over any run of reads the peer is never owed a whole `ackEvery` bytes, is
   told only of bytes received, and is told at most once for each of them.
   */
  lemma {:induction false} NotificationsArePaced(e: Endpoint, channel: ChannelId, chunks: seq<nat>)
    requires ToldEnough(e)
    ensures ToldEnough(ReadAll(e, channel, chunks))
    ensures ReadAll(e, channel, chunks).lastNotified >= e.lastNotified + e.ackEvery * Notices(e, channel, chunks)
    ensures e.ackEvery == 0 ==> Notices(e, channel, chunks) == 0
    decreases |chunks|
  {
    if chunks != [] {
      var r := ReadChunk(e, channel, chunks[0]);
      ReadNotifies(e, channel, chunks[0]);
      NotificationsArePaced(r.endpoint, channel, chunks[1..]);
      Paced(e.ackEvery, r.notify, e.lastNotified, r.endpoint.lastNotified,
            ReadAll(r.endpoint, channel, chunks[1..]).lastNotified, Notices(r.endpoint, channel, chunks[1..]));
    }
  }
}
