/** Exactly-once delivery over every run, and the appends that break it. */
module DeliveryTheorems {
  import opened Common
  import opened ReplayJournal
  import opened StreamRegions
  import opened Delivery
  import opened DeliveryProofs

  // ---------------------------------------------------------------------
  // Exactly-once delivery
  // ---------------------------------------------------------------------

  /** `left` bytes are whole chunks of `buffer` bytes. */
  predicate ChunksLeft(left: int, buffer: nat) {
    || left == 0
    || left == buffer
    || (0 <= left && buffer == REPLAY_COPY_BUFFER && left % REPLAY_COPY_BUFFER == 0)
  }

  /**
   During a replay the writer appends only while whole chunks are left.  The
   last chunk of any other replay is not capped at the snapshot and also reads
   whatever has been appended since.
   */
  predicate CleanAppend(s: System, a: Action) {
    a.StartWrite? && s.replacer.Replaying? ==>
      ChunksLeft(s.replacer.snapshotEnd - s.replacer.offset, s.replacer.buffer)
  }

  ghost predicate CleanRun(s: System, run: seq<Action>)
    requires Legal(s, run)
    decreases |run|
  {
    run == [] || (CleanAppend(s, run[0]) && CleanRun(Next(s, run[0]), run[1..]))
  }

  /** A replay has whole chunks left, or nothing was appended since its snapshot; when finished it stopped there. */
  ghost predicate OnTrack(s: System) {
    match s.replacer
    case Replaying(_, offset, snapshotEnd, buffer) =>
      || ChunksLeft(snapshotEnd - offset, buffer)
      || (snapshotEnd == |s.log| && offset <= snapshotEnd && buffer == REPLAY_COPY_BUFFER)
    case Publishing(_, offset, snapshotEnd, _) => offset == snapshotEnd
    case _ => true
  }

  /** A chunk taken out of whole chunks is a whole chunk, however much has been appended. */
  lemma ChunkTaken(left: int, buffer: nat, available: int)
    requires 0 < left <= available && 0 < buffer && ChunksLeft(left, buffer)
    ensures ChunksLeft(left - Min(buffer, available), buffer)
  {
  }

  lemma OnTrackStep(s: System, a: Action)
    requires Inv(s) && Enabled(s, a) && OnTrack(s) && CleanAppend(s, a)
    ensures OnTrack(Next(s, a)) && Exact(s, a)
  {
    if a.ReplayChunk? {
      ChunkIsLogSlice(s);
      var left := s.replacer.snapshotEnd - s.replacer.offset;
      if ChunksLeft(left, s.replacer.buffer) {
        ChunkTaken(left, s.replacer.buffer, |s.log| - s.replacer.offset);
      }
    }
  }

  lemma {:induction false} InvRun(s: System, run: seq<Action>)
    requires Inv(s) && OnTrack(s) && Legal(s, run) && CleanRun(s, run)
    ensures Inv(After(s, run)) && OnTrack(After(s, run))
    decreases |run|
  {
    if run != [] {
      OnTrackStep(s, run[0]);
      InvStep(s, run[0]);
      InvRun(Next(s, run[0]), run[1..]);
    }
  }

  /**
   Exactly-once, in-order delivery: after any run of writes, partial writes,
   failures, detaches and replacements of any length, in which whatever is
   appended during a replay finds whole chunks left, the bytes handed to the
   reader are a prefix of the bytes accepted from the writer.
   */
  lemma ExactlyOnceDelivery(senderCapacity: nat, receiverCapacity: nat, ackEvery: nat, halfClose: bool,
                            run: seq<Action>)
    requires 0 < senderCapacity && 0 < receiverCapacity
    requires Legal(Initial(senderCapacity, receiverCapacity, ackEvery, halfClose), run)
    requires CleanRun(Initial(senderCapacity, receiverCapacity, ackEvery, halfClose), run)
    ensures var s := After(Initial(senderCapacity, receiverCapacity, ackEvery, halfClose), run);
            && s.delivered <= s.log
            && |s.delivered| == s.receiver.receiveOffset
  {
    InvInitial(senderCapacity, receiverCapacity, ackEvery, halfClose);
    InvRun(Initial(senderCapacity, receiverCapacity, ackEvery, halfClose), run);
  }

  // ---------------------------------------------------------------------
  // Replays of whole chunks may be appended to freely
  // ---------------------------------------------------------------------

  /** A replay of `n` bytes that reads whole copy buffers only. */
  predicate WholeChunks(n: nat) {
    n <= REPLAY_COPY_BUFFER || n % REPLAY_COPY_BUFFER == 0
  }

  /** The number of bytes a replacement over `channel` would replay now. */
  function ReplayLength(s: System, channel: ChannelId): (n: int)
    requires channel in s.channels
  {
    |s.log| - s.channels[channel].start
  }

  /** A replacement is begun only when it replays whole chunks. */
  predicate WholeBegin(s: System, a: Action) {
    a.BeginReplace? && a.channel in s.channels && ReplayLength(s, a.channel) >= 0
    ==> WholeChunks(ReplayLength(s, a.channel))
  }

  ghost predicate WholeRun(s: System, run: seq<Action>)
    requires Legal(s, run)
    decreases |run|
  {
    run == [] || (WholeBegin(s, run[0]) && WholeRun(Next(s, run[0]), run[1..]))
  }

  /** The replay under way has whole chunks left. */
  ghost predicate WholeLeft(s: System) {
    s.replacer.Replaying? ==> ChunksLeft(s.replacer.snapshotEnd - s.replacer.offset, s.replacer.buffer)
  }

  lemma WholeLeftStep(s: System, a: Action)
    requires Inv(s) && Enabled(s, a) && WholeLeft(s) && WholeBegin(s, a)
    ensures WholeLeft(Next(s, a)) && CleanAppend(s, a)
  {
    if a.ReplayChunk? {
      ChunkIsLogSlice(s);
      ChunkTaken(s.replacer.snapshotEnd - s.replacer.offset, s.replacer.buffer, |s.log| - s.replacer.offset);
    }
  }

  /** A caller who only replaces over whole chunks may append at any time. */
  lemma {:induction false} WholeChunksAreClean(s: System, run: seq<Action>)
    requires Inv(s) && OnTrack(s) && WholeLeft(s) && Legal(s, run) && WholeRun(s, run)
    ensures CleanRun(s, run)
    decreases |run|
  {
    if run != [] {
      WholeLeftStep(s, run[0]);
      OnTrackStep(s, run[0]);
      InvStep(s, run[0]);
      WholeChunksAreClean(Next(s, run[0]), run[1..]);
    }
  }

  // ---------------------------------------------------------------------
  // Any other append can duplicate bytes
  // ---------------------------------------------------------------------

  lemma LegalCons(s: System, a: Action, rest: seq<Action>)
    requires s.sender.journal.Valid() && Enabled(s, a) && Legal(Next(s, a), rest)
    ensures Legal(s, [a] + rest) && After(s, [a] + rest) == After(Next(s, a), rest)
  {
    assert ([a] + rest)[1..] == rest;
  }

  lemma ConsConcat<T>(first: seq<T>, second: seq<T>)
    requires first != []
    ensures first + second == [first[0]] + (first[1..] + second)
  {
  }

  lemma {:induction false} LegalConcat(s: System, first: seq<Action>, second: seq<Action>)
    requires Legal(s, first) && Legal(After(s, first), second)
    ensures Legal(s, first + second) && After(s, first + second) == After(After(s, first), second)
    decreases |first|
  {
    if first == [] {
      assert first + second == second;
    } else {
      ConsConcat(first, second);
      LegalConcat(Next(s, first[0]), first[1..], second);
      LegalCons(s, first[0], first[1..] + second);
    }
  }

  /** Only the replay position and what the candidate carries may differ. */
  ghost predicate OnlyReplayed(s: System, r: System) {
    && s.replacer.Replaying? && s.replacer.channel in s.channels
    && r.replacer.Replaying? && r.replacer.channel == s.replacer.channel && r.replacer.channel in r.channels
    && r.replacer.snapshotEnd == s.replacer.snapshotEnd && r.replacer.buffer == s.replacer.buffer
    && r.log == s.log && r.sender == s.sender && r.writer == s.writer && r.receiver == s.receiver
    && r.delivered == s.delivered && r.channels.Keys == s.channels.Keys
    && r.channels[r.replacer.channel].start == s.channels[s.replacer.channel].start
    && r.channels[r.replacer.channel].consumed == s.channels[s.replacer.channel].consumed
    && r.channels[r.replacer.channel].installed == s.channels[s.replacer.channel].installed
  }

  /** The replay still retains what it has to copy, and will end in a partial chunk. */
  ghost predicate Unfinished(s: System) {
    && s.replacer.Replaying?
    && s.replacer.buffer == REPLAY_COPY_BUFFER
    && s.replacer.offset < s.replacer.snapshotEnd
    && (s.replacer.snapshotEnd - s.replacer.offset) % REPLAY_COPY_BUFFER != 0
    && s.sender.journal.base <= s.replacer.offset && !s.sender.journal.closed
  }

  lemma PartialRemains(left: nat)
    requires REPLAY_COPY_BUFFER <= left && left % REPLAY_COPY_BUFFER != 0
    ensures 0 < left - REPLAY_COPY_BUFFER && (left - REPLAY_COPY_BUFFER) % REPLAY_COPY_BUFFER != 0
  {
  }

  lemma ReplayFullChunk(s: System)
    requires Inv(s) && Unfinished(s)
    requires REPLAY_COPY_BUFFER <= s.replacer.snapshotEnd - s.replacer.offset
    ensures Enabled(s, ReplayChunk)
    ensures var r := Next(s, ReplayChunk);
            && Unfinished(r) && OnlyReplayed(s, r)
            && r.replacer.offset == s.replacer.offset + REPLAY_COPY_BUFFER
  {
    ChunkIsLogSlice(s);
    PartialRemains(s.replacer.snapshotEnd - s.replacer.offset);
    var r := DoReplayChunk(s);
    assert r.replacer.offset == s.replacer.offset + REPLAY_COPY_BUFFER;
  }

  lemma {:induction false} ReplayToPartialChunk(s: System) returns (run: seq<Action>, r: System)
    requires Inv(s) && Unfinished(s)
    ensures Legal(s, run) && r == After(s, run)
    ensures Inv(r) && OnlyReplayed(s, r) && Unfinished(r)
    ensures r.replacer.snapshotEnd - r.replacer.offset < REPLAY_COPY_BUFFER
    decreases |s.log| - s.replacer.offset
  {
    if s.replacer.snapshotEnd - s.replacer.offset < REPLAY_COPY_BUFFER {
      run, r := [], s;
    } else {
      ReplayFullChunk(s);
      InvStep(s, ReplayChunk);
      var rest;
      rest, r := ReplayToPartialChunk(Next(s, ReplayChunk));
      LegalCons(s, ReplayChunk, rest);
      run := [ReplayChunk] + rest;
    }
  }

  /** The published channel has already carried some of the bytes still to be transmitted. */
  ghost predicate Overrun(s: System, channel: ChannelId) {
    && s.sender.journal.Valid() && !s.sender.closed
    && s.sender.physical == Some(channel) && channel in s.channels
    && s.sender.transmitted < s.channels[channel].Reach() <= |s.log|
    && s.writer == Writing(s.sender.transmitted, |s.log|)
    && CanInstall(s, channel) && s.channels[channel].start <= s.receiver.receiveOffset
    && !s.receiver.closed && |s.delivered| == s.receiver.receiveOffset <= s.sender.transmitted
    && 2 * |s.log| - s.sender.transmitted <= MAX_SEQUENCE
  }

  /** The partial last chunk reads past the snapshot. */
  lemma LastChunkOverruns(s: System)
    requires Inv(s) && Unfinished(s) && s.replacer.snapshotEnd < |s.log|
    requires s.replacer.snapshotEnd - s.replacer.offset < REPLAY_COPY_BUFFER
    ensures CanReplayChunk(s)
    ensures var r := DoReplayChunk(s);
            Control(r) && OnlyReplayed(s, r) && r.replacer.snapshotEnd < r.replacer.offset <= |s.log|
  {
    ChunkIsLogSlice(s);
    ControlReplayChunk(s);
  }

  /** A replay that ran past its snapshot is published all the same. */
  lemma PublishOverruns(s: System, reverseStart: nat)
    requires Control(s) && s.replacer.Replaying? && s.replacer.snapshotEnd < s.replacer.offset <= |s.log|
    requires !s.sender.closed && s.writer == Writing(s.replacer.snapshotEnd, |s.log|)
    requires CanInstall(s, s.replacer.channel) && |s.delivered| == s.receiver.receiveOffset <= s.replacer.snapshotEnd
    requires reverseStart <= s.sender.receiveOffset && 2 * |s.log| - s.replacer.snapshotEnd <= MAX_SEQUENCE
    ensures var run := [FinishReplay, Publish(reverseStart)];
            Legal(s, run) && Overrun(After(s, run), s.replacer.channel)
  {
    var s1 := DoFinishReplay(s);
    LegalCons(s1, Publish(reverseStart), []);
    LegalCons(s, FinishReplay, [Publish(reverseStart)]);
  }

  /** The writer then sends those bytes again, and a reader that reads on gets more than was written. */
  lemma OverrunDuplicates(s: System, channel: ChannelId) returns (run: seq<Action>)
    requires Overrun(s, channel)
    ensures Legal(s, run) && |After(s, run).delivered| > |After(s, run).log|
  {
    var count := |s.log| - s.sender.transmitted;
    var s1 := DoBeginAttempt(s);
    var s2 := DoAccept(s1, count);
    var s3 := DoInstall(s2, channel, 0, false);
    var n := |s3.channels[channel].carried|;
    ReadSplits(s3.receiver, channel, n);
    var s4 := DoDeliver(s3, n);
    LegalCons(s3, Deliver(n), []);
    LegalCons(s2, Install(channel, 0, false), [Deliver(n)]);
    LegalCons(s1, Accept(count), [Install(channel, 0, false), Deliver(n)]);
    LegalCons(s, BeginAttempt, [Accept(count), Install(channel, 0, false), Deliver(n)]);
    run := [BeginAttempt] + [Accept(count), Install(channel, 0, false), Deliver(n)];
    assert After(s, run) == s4;
  }

  /** From the partial last chunk on, with something appended since the snapshot. */
  lemma LastChunkBreaksDelivery(s: System, reverseStart: nat) returns (run: seq<Action>)
    requires Inv(s) && Unfinished(s) && s.replacer.snapshotEnd < |s.log|
    requires s.replacer.snapshotEnd - s.replacer.offset < REPLAY_COPY_BUFFER
    requires s.writer == Writing(s.replacer.snapshotEnd, |s.log|)
    requires CanInstall(s, s.replacer.channel) && s.receiver.receiveOffset <= s.replacer.snapshotEnd
    requires reverseStart <= s.sender.receiveOffset && 2 * |s.log| - s.replacer.snapshotEnd <= MAX_SEQUENCE
    ensures Legal(s, run) && |After(s, run).delivered| > |After(s, run).log|
  {
    LastChunkOverruns(s);
    var s1 := DoReplayChunk(s);
    PublishOverruns(s1, reverseStart);
    var publish := [FinishReplay, Publish(reverseStart)];
    var again := OverrunDuplicates(After(s1, publish), s.replacer.channel);
    LegalConcat(s1, publish, again);
    LegalCons(s, ReplayChunk, publish + again);
    run := [ReplayChunk] + (publish + again);
  }

  /**
   The condition of `ExactlyOnceDelivery` is needed: whatever is appended to a
   replay that has no whole chunks left, some continuation hands the reader
   more bytes than were written.
   */
  lemma UncleanAppendBreaksDelivery(s: System, payload: seq<byte>, reverseStart: nat) returns (run: seq<Action>)
    requires Inv(s) && OnTrack(s) && CanStartWrite(s, payload) && !CleanAppend(s, StartWrite(payload))
    requires s.sender.journal.base <= s.replacer.offset && CanInstall(s, s.replacer.channel)
    requires reverseStart <= s.sender.receiveOffset && |s.log| + 2 * |payload| <= MAX_SEQUENCE
    ensures Legal(s, [StartWrite(payload)] + run)
    ensures var r := After(s, [StartWrite(payload)] + run); !(r.delivered <= r.log)
  {
    var append := StartWrite(payload);
    InvStep(s, append);
    var s1 := Next(s, append);
    var chunks, s2 := ReplayToPartialChunk(s1);
    var rest := LastChunkBreaksDelivery(s2, reverseStart);
    LegalConcat(s1, chunks, rest);
    run := chunks + rest;
    LegalCons(s, append, run);
  }

  /**
   So a replacement over a length that is not whole chunks can always be
   broken by a write right after it has begun.
   */
  lemma PartialChunkBreaksDelivery(s: System, channel: ChannelId, payload: seq<byte>, reverseStart: nat)
    returns (run: seq<Action>)
    requires Inv(s) && CanBeginReplace(s, channel, reverseStart) && CanInstall(s, channel)
    requires !WholeChunks(ReplayLength(s, channel))
    requires s.writer.Idle? && !s.sender.localFin && payload != []
    requires ReplayLength(s, channel) + |payload| <= s.sender.journal.capacity
    requires |s.log| + 2 * |payload| <= MAX_SEQUENCE
    ensures Legal(s, run) && !(After(s, run).delivered <= After(s, run).log)
  {
    var begin := BeginReplace(channel, reverseStart);
    InvStep(s, begin);
    var s1 := Next(s, begin);
    var rest := UncleanAppendBreaksDelivery(s1, payload, reverseStart);
    LegalCons(s, begin, [StartWrite(payload)] + rest);
    run := [begin] + ([StartWrite(payload)] + rest);
  }

  // ---------------------------------------------------------------------
  // Such runs exist from the very start
  // ---------------------------------------------------------------------

  /**
   A write is given up with its bytes in the journal, both sides lose their
   stream and negotiate another.  A write without a physical stream returns
   when its stream's context is cancelled.
   */
  function GivenUp(payload: seq<byte>): (run: seq<Action>) {
    [LoseSender(0), StartWrite(payload), Return, LoseReceiver, OpenChannel(1, 0, true)]
  }

  /** Nothing but the given-up bytes is there, and channel 1 waits at the start. */
  ghost predicate ReadyToReplace(s: System, payload: seq<byte>) {
    && Inv(s) && s.log == payload && s.sender.transmitted == 0 && s.writer.Idle? && s.replacer.Resting?
    && !s.sender.localFin && s.receiver.receiveOffset == 0
    && s.channels.Keys == {0, 1} && s.channels[1].start == 0 && s.channels[1].halfClose
    && CanBeginReplace(s, 1, 0) && CanInstall(s, 1)
  }

  /** The writer has given up, the peer still waits on the first channel. */
  ghost predicate WriteGivenUp(s: System, payload: seq<byte>) {
    && Inv(s) && s.log == payload && s.sender.transmitted == 0 && s.writer.Idle? && s.replacer.Resting?
    && !s.sender.localFin && !s.sender.closed && s.sender.physical.None? && s.sender.journal.base == 0
    && s.receiver.receiveOffset == 0 && !s.receiver.closed && s.channels.Keys == {0}
  }

  lemma WriteIsGivenUp(senderCapacity: nat, receiverCapacity: nat, ackEvery: nat, halfClose: bool,
                       payload: seq<byte>)
    requires 0 < |payload| <= senderCapacity && 0 < receiverCapacity && |payload| <= MAX_SEQUENCE
    ensures var s := Initial(senderCapacity, receiverCapacity, ackEvery, halfClose);
            var run := [LoseSender(0), StartWrite(payload), Return];
            && Legal(s, run) && WriteGivenUp(After(s, run), payload)
            && After(s, run).sender.journal.capacity == senderCapacity
  {
    var s := Initial(senderCapacity, receiverCapacity, ackEvery, halfClose);
    InvInitial(senderCapacity, receiverCapacity, ackEvery, halfClose);
    InvStep(s, LoseSender(0));
    var s1 := Next(s, LoseSender(0));
    InvStep(s1, StartWrite(payload));
    var s2 := Next(s1, StartWrite(payload));
    InvStep(s2, Return);
    LegalCons(s2, Return, []);
    LegalCons(s1, StartWrite(payload), [Return]);
    LegalCons(s, LoseSender(0), [StartWrite(payload), Return]);
  }

  lemma AnotherIsNegotiated(s: System, payload: seq<byte>)
    requires WriteGivenUp(s, payload)
    ensures var run := [LoseReceiver, OpenChannel(1, 0, true)];
            && Legal(s, run) && ReadyToReplace(After(s, run), payload)
            && After(s, run).sender.journal == s.sender.journal
  {
    var open := OpenChannel(1, 0, true);
    InvStep(s, LoseReceiver);
    var s1 := Next(s, LoseReceiver);
    InvStep(s1, open);
    LegalCons(s1, open, []);
    LegalCons(s, LoseReceiver, [open]);
  }

  lemma GivenUpIsReady(senderCapacity: nat, receiverCapacity: nat, ackEvery: nat, halfClose: bool,
                       payload: seq<byte>)
    requires 0 < |payload| <= senderCapacity && 0 < receiverCapacity && |payload| <= MAX_SEQUENCE
    ensures var s := Initial(senderCapacity, receiverCapacity, ackEvery, halfClose);
            && Legal(s, GivenUp(payload)) && ReadyToReplace(After(s, GivenUp(payload)), payload)
            && After(s, GivenUp(payload)).sender.journal.capacity == senderCapacity
  {
    var s := Initial(senderCapacity, receiverCapacity, ackEvery, halfClose);
    var first, second := [LoseSender(0), StartWrite(payload), Return], [LoseReceiver, OpenChannel(1, 0, true)];
    WriteIsGivenUp(senderCapacity, receiverCapacity, ackEvery, halfClose, payload);
    AnotherIsNegotiated(After(s, first), payload);
    LegalConcat(s, first, second);
    assert GivenUp(payload) == first + second;
  }

  /** One byte more than a copy buffer is enough for bytes to be delivered twice. */
  lemma DuplicateIsReachable(receiverCapacity: nat, ackEvery: nat, halfClose: bool) returns (run: seq<Action>)
    requires 0 < receiverCapacity
    ensures Legal(Initial(65536, receiverCapacity, ackEvery, halfClose), run)
    ensures var r := After(Initial(65536, receiverCapacity, ackEvery, halfClose), run); !(r.delivered <= r.log)
  {
    var s := Initial(65536, receiverCapacity, ackEvery, halfClose);
    var payload := seq(REPLAY_COPY_BUFFER + 1, _ => 0 as byte);
    GivenUpIsReady(65536, receiverCapacity, ackEvery, halfClose, payload);
    var rest := PartialChunkBreaksDelivery(After(s, GivenUp(payload)), 1, [0], 0);
    LegalConcat(s, GivenUp(payload), rest);
    run := GivenUp(payload) + rest;
  }
}
