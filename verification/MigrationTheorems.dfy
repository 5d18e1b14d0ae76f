/**
 Moving a flow to another physical stream: the migration barrier, what keeps
 it, and the replacements that break it.
 */
module MigrationTheorems {
  import opened Common
  import opened ReplayJournal
  import opened StreamRegions
  import opened Delivery
  import opened DeliveryProofs
  import opened DeliveryTheorems

  // ---------------------------------------------------------------------
  // The barrier
  // ---------------------------------------------------------------------

  /** No physical stream, no write in flight and no replacement under way. */
  ghost predicate Quiesced(s: System) {
    !s.sender.closed && s.sender.physical.None? && s.replacer.Resting? && !s.writer.Attempting?
  }

  /**
   `DetachPhysical` returns with no write in flight and no acknowledgement
   staged; if it had to wait, the deferred acknowledgement has been applied.
   */
  lemma DetachQuiesces(s: System)
    requires Control(s) && CanEndDetach(s) && !s.sender.closed
    ensures var r := Next(s, EndDetach);
            Quiesced(r) && r.sender.pendingAck == 0 && (s.replacer.awaited ==> !r.writer.Settling?)
  {
  }

  /**
   Once quiesced, and if no failed replay ran ahead of `transmitted`, the
   peer's receive offset lies between the journal base and `transmitted`, so a
   replacement at that offset is admitted.
   */
  lemma MigrationBarrier(s: System, channel: ChannelId, reverseStart: nat)
    requires Control(s) && Quiesced(s) && s.leak <= s.sender.transmitted
    requires channel in s.channels && !s.channels[channel].used
    requires s.sender.journal.base <= s.channels[channel].start
    requires reverseStart <= s.sender.receiveOffset
    ensures s.sender.journal.base <= s.receiver.receiveOffset <= s.sender.transmitted
    ensures CanBeginReplace(s, channel, reverseStart)
  {
    assert s.channels[channel].start <= s.receiver.receiveOffset <= Frontier(s);
  }

  lemma TransmittedGrows(s: System, a: Action)
    requires Control(s) && Enabled(s, a)
    ensures s.sender.transmitted <= Next(s, a).sender.transmitted
  {
  }

  // ---------------------------------------------------------------------
  // What keeps it: no replacement of unsent bytes fails
  // ---------------------------------------------------------------------

  /** A replacement fails only if everything in its snapshot had been transmitted before. */
  predicate SafeFailure(s: System, a: Action) {
    (a.FailReplay? && s.replacer.Replaying?) || (a.FailPublish? && s.replacer.Publishing?) ==>
      s.replacer.snapshotEnd <= s.sender.transmitted
  }

  ghost predicate SafeRun(s: System, run: seq<Action>)
    requires Legal(s, run)
    decreases |run|
  {
    run == [] || (SafeFailure(s, run[0]) && SafeRun(Next(s, run[0]), run[1..]))
  }

  lemma BufferFits(left: int, buffer: nat)
    requires 0 < left && ChunksLeft(left, buffer)
    ensures buffer <= left
  {
  }

  /** However a replay fails, its candidate took nothing beyond the snapshot. */
  lemma FailureStaysBelowSnapshot(s: System, count: nat)
    requires Inv(s) && OnTrack(s) && CanFailReplay(s, count)
    ensures s.replacer.offset + count <= s.replacer.snapshotEnd
  {
    ChunkIsLogSlice(s);
    var left := s.replacer.snapshotEnd - s.replacer.offset;
    if ChunksLeft(left, s.replacer.buffer) {
      BufferFits(left, s.replacer.buffer);
    }
  }

  lemma NoLeakStep(s: System, a: Action)
    requires Inv(s) && OnTrack(s) && s.leak <= s.sender.transmitted && Enabled(s, a) && SafeFailure(s, a)
    ensures Next(s, a).leak <= Next(s, a).sender.transmitted
  {
    TransmittedGrows(s, a);
    if a.FailReplay? {
      FailureStaysBelowSnapshot(s, a.count);
    }
  }

  lemma {:induction false} NoLeakRun(s: System, run: seq<Action>)
    requires Inv(s) && OnTrack(s) && s.leak <= s.sender.transmitted
    requires Legal(s, run) && CleanRun(s, run) && SafeRun(s, run)
    ensures After(s, run).leak <= After(s, run).sender.transmitted
    decreases |run|
  {
    if run != [] {
      OnTrackStep(s, run[0]);
      InvStep(s, run[0]);
      NoLeakStep(s, run[0]);
      NoLeakRun(Next(s, run[0]), run[1..]);
    }
  }

  /** The peer's offset is covered from both sides, and a replacement over this channel at that offset is admitted. */
  ghost predicate Covered(s: System, channel: ChannelId, reverseStart: nat) {
    && s.sender.journal.base <= s.receiver.receiveOffset <= s.sender.transmitted
    && (channel in s.channels && !s.channels[channel].used && reverseStart <= s.sender.receiveOffset
        && s.channels[channel].start == s.receiver.receiveOffset ==>
          CanBeginReplace(s, channel, reverseStart))
  }

  /**
   The migration barrier over every run, with bytes unsent whenever a carrier
   dies in mid-write, in which no replacement of unsent bytes fails: a quiesced
   sender covers the peer's offset, so a replacement at the peer's true offset
   is admitted.
   */
  lemma PeerOffsetCovered(senderCapacity: nat, receiverCapacity: nat, ackEvery: nat, halfClose: bool,
                          run: seq<Action>, channel: ChannelId, reverseStart: nat)
    requires 0 < senderCapacity && 0 < receiverCapacity
    requires var s := Initial(senderCapacity, receiverCapacity, ackEvery, halfClose);
             Legal(s, run) && CleanRun(s, run) && SafeRun(s, run)
    ensures var s := After(Initial(senderCapacity, receiverCapacity, ackEvery, halfClose), run);
            Quiesced(s) ==> Covered(s, channel, reverseStart)
  {
    var s := Initial(senderCapacity, receiverCapacity, ackEvery, halfClose);
    InvInitial(senderCapacity, receiverCapacity, ackEvery, halfClose);
    InvRun(s, run);
    NoLeakRun(s, run);
  }

  // ---------------------------------------------------------------------
  // Drained replacements may fail as they like
  // ---------------------------------------------------------------------

  /** A replacement is begun only when everything written has been transmitted. */
  predicate DrainedBegin(s: System, a: Action) {
    a.BeginReplace? ==> s.sender.transmitted == |s.log|
  }

  ghost predicate DrainedRun(s: System, run: seq<Action>)
    requires Legal(s, run)
    decreases |run|
  {
    run == [] || (DrainedBegin(s, run[0]) && DrainedRun(Next(s, run[0]), run[1..]))
  }

  /** The replacement under way has nothing unsent in its snapshot. */
  ghost predicate Drained(s: System) {
    s.replacer.Replaying? || s.replacer.Publishing? ==> s.replacer.snapshotEnd <= s.sender.transmitted
  }

  lemma DrainedStep(s: System, a: Action)
    requires Control(s) && Drained(s) && Enabled(s, a) && DrainedBegin(s, a)
    ensures Drained(Next(s, a)) && SafeFailure(s, a)
  {
    TransmittedGrows(s, a);
  }

  /** A caller who replaces only when everything has been transmitted keeps the barrier, however replays fail. */
  lemma {:induction false} DrainedIsSafe(s: System, run: seq<Action>)
    requires Inv(s) && OnTrack(s) && Drained(s)
    requires Legal(s, run) && CleanRun(s, run) && DrainedRun(s, run)
    ensures SafeRun(s, run)
    decreases |run|
  {
    if run != [] {
      OnTrackStep(s, run[0]);
      InvStep(s, run[0]);
      DrainedStep(s, run[0]);
      DrainedIsSafe(Next(s, run[0]), run[1..]);
    }
  }

  // ---------------------------------------------------------------------
  // A replacement of unsent bytes that fails can strand the peer
  // ---------------------------------------------------------------------

  /** The peer stands where no replacement over the channel it negotiates is admitted. */
  ghost predicate Stranded(s: System, channel: ChannelId) {
    && Quiesced(s) && channel in s.channels && !s.channels[channel].used
    && s.channels[channel].start == s.receiver.receiveOffset
    && forall reverseStart :: !CanBeginReplace(s, channel, reverseStart)
  }

  /** A reader that empties a channel ahead of `transmitted` can no longer be resumed where it stands. */
  lemma ReaderOvertakes(s: System, channel: ChannelId, next: ChannelId) returns (run: seq<Action>)
    requires Control(s) && Quiesced(s)
    requires s.receiver.physical == Some(channel) && !s.receiver.closed
    requires Max(s.sender.transmitted, s.receiver.receiveOffset) < s.channels[channel].Reach() <= MAX_SEQUENCE
    requires next !in s.channels
    ensures Legal(s, run) && Stranded(After(s, run), next)
  {
    var c := s.channels[channel];
    var n := |c.carried| - c.consumed;
    ReadSplits(s.receiver, channel, n);
    var s1 := DoDeliver(s, n);
    var open := OpenChannel(next, s1.receiver.receiveOffset, true);
    LegalCons(s1, open, []);
    LegalCons(s, Deliver(n), [open]);
    run := [Deliver(n)] + [open];
  }

  /** If the peer reads what a failed candidate took beyond `transmitted`, it is stranded. */
  lemma LeakStrandsPeer(s: System, count: nat, next: ChannelId) returns (run: seq<Action>)
    requires Control(s) && CanFailReplay(s, count) && !s.sender.closed && !s.writer.Attempting?
    requires Max(s.sender.transmitted, s.receiver.receiveOffset) < s.replacer.offset + count <= MAX_SEQUENCE
    requires s.receiver.physical == Some(s.replacer.channel) && !s.receiver.closed
    requires next !in s.channels
    ensures Legal(s, run) && Stranded(After(s, run), next)
  {
    ControlFailReplay(s, count);
    var rest := ReaderOvertakes(DoFailReplay(s, count), s.replacer.channel, next);
    LegalCons(s, FailReplay(count), rest);
    run := [FailReplay(count)] + rest;
  }

  /** A replay that has not reached `transmitted` yet, with more than that to replay. */
  ghost predicate ReplaysUnsent(s: System) {
    && s.replacer.Replaying? && !s.sender.closed
    && s.sender.journal.base <= s.replacer.offset <= s.sender.transmitted < s.replacer.snapshotEnd
  }

  lemma ReplayTransmittedChunk(s: System)
    requires Inv(s) && ReplaysUnsent(s) && s.replacer.offset + |NextChunk(s)| <= s.sender.transmitted
    ensures CanReplayChunk(s)
    ensures var r := DoReplayChunk(s);
            Inv(r) && ReplaysUnsent(r) && OnlyReplayed(s, r) && s.replacer.offset < r.replacer.offset
  {
    ChunkIsLogSlice(s);
    InvStep(s, ReplayChunk);
  }

  /** An undisturbed replay of bytes never transmitted, up to the chunk that goes beyond `transmitted`. */
  lemma {:induction false} ReplayBeyondTransmitted(s: System) returns (run: seq<Action>, r: System)
    requires Inv(s) && ReplaysUnsent(s)
    ensures Legal(s, run) && r == After(s, run) && Inv(r) && OnlyReplayed(s, r)
    ensures ReplaysUnsent(r) && r.sender.transmitted < r.replacer.offset + |NextChunk(r)|
    decreases |s.log| - s.replacer.offset
  {
    if s.sender.transmitted < s.replacer.offset + |NextChunk(s)| {
      run, r := [], s;
    } else {
      ReplayTransmittedChunk(s);
      var rest;
      rest, r := ReplayBeyondTransmitted(DoReplayChunk(s));
      LegalCons(s, ReplayChunk, rest);
      run := [ReplayChunk] + rest;
    }
  }

  /** The peer installs the candidate, which then fails having taken a chunk beyond `transmitted`. */
  lemma LastChunkStrandsPeer(s: System, next: ChannelId) returns (run: seq<Action>)
    requires Inv(s) && ReplaysUnsent(s) && !s.writer.Attempting?
    requires s.receiver.receiveOffset <= s.sender.transmitted < s.replacer.offset + |NextChunk(s)|
    requires CanInstall(s, s.replacer.channel) && next !in s.channels && |s.log| <= MAX_SEQUENCE
    ensures Legal(s, run) && Stranded(After(s, run), next)
  {
    ChunkIsLogSlice(s);
    var install := Install(s.replacer.channel, 0, false);
    ControlInstall(s, s.replacer.channel, 0, false);
    var rest := LeakStrandsPeer(Next(s, install), |NextChunk(s)|, next);
    LegalCons(s, install, rest);
    run := [install] + rest;
  }

  /**
   The condition of `PeerOffsetCovered` is needed: a replacement agreed at the
   peer's true offset that begins with bytes still unsent, and with no write in
   flight, can fail in such a way that no later replacement at the peer's
   offset is admitted.
   */
  lemma UndrainedReplaceStrandsPeer(s: System, channel: ChannelId, reverseStart: nat, next: ChannelId)
    returns (run: seq<Action>)
    requires Inv(s) && CanBeginReplace(s, channel, reverseStart)
    requires !DrainedBegin(s, BeginReplace(channel, reverseStart))
    requires s.channels[channel].start == s.receiver.receiveOffset && CanInstall(s, channel)
    requires !s.writer.Attempting? && next !in s.channels && |s.log| <= MAX_SEQUENCE
    ensures Legal(s, [BeginReplace(channel, reverseStart)] + run)
    ensures Stranded(After(s, [BeginReplace(channel, reverseStart)] + run), next)
  {
    var begin := BeginReplace(channel, reverseStart);
    InvStep(s, begin);
    var s1 := Next(s, begin);
    var chunks, s2 := ReplayBeyondTransmitted(s1);
    var rest := LastChunkStrandsPeer(s2, next);
    LegalConcat(s1, chunks, rest);
    run := chunks + rest;
    LegalCons(s, begin, run);
  }

  /** Such a run exists from the very start: one byte is enough to strand a peer. */
  lemma PeerCanBeStranded(senderCapacity: nat, receiverCapacity: nat, ackEvery: nat, halfClose: bool, x: byte)
    returns (run: seq<Action>)
    requires 0 < senderCapacity && 0 < receiverCapacity
    ensures Legal(Initial(senderCapacity, receiverCapacity, ackEvery, halfClose), run)
    ensures Stranded(After(Initial(senderCapacity, receiverCapacity, ackEvery, halfClose), run), 2)
  {
    var s := Initial(senderCapacity, receiverCapacity, ackEvery, halfClose);
    GivenUpIsReady(senderCapacity, receiverCapacity, ackEvery, halfClose, [x]);
    var rest := UndrainedReplaceStrandsPeer(After(s, GivenUp([x])), 1, 0, 2);
    LegalConcat(s, GivenUp([x]), [BeginReplace(1, 0)] + rest);
    run := GivenUp([x]) + ([BeginReplace(1, 0)] + rest);
  }

  // ---------------------------------------------------------------------
  // Agreed replacements never lose what they have to replay
  // ---------------------------------------------------------------------

  /**
   Both peers agree on the replacement: it starts at the peer's own offset,
   with the peer on no other stream, and the peer installs no other meanwhile.
   */
  predicate AgreedStep(s: System, a: Action) {
    && (a.BeginReplace? && a.channel in s.channels ==>
          && s.channels[a.channel].start == s.receiver.receiveOffset
          && (s.receiver.physical.None? || s.receiver.physical == Some(a.channel)))
    && (a.Install? && s.replacer.Replaying? ==> a.channel == s.replacer.channel)
  }

  ghost predicate AgreedRun(s: System, run: seq<Action>)
    requires Legal(s, run)
    decreases |run|
  {
    run == [] || (AgreedStep(s, run[0]) && AgreedRun(Next(s, run[0]), run[1..]))
  }

  /** The reader has not overtaken the replay, and reads from nothing but the candidate. */
  ghost predicate BehindReplay(s: System) {
    s.replacer.Replaying? ==>
      && s.receiver.receiveOffset <= s.replacer.offset
      && (s.receiver.physical.None? || s.receiver.physical == Some(s.replacer.channel))
  }

  lemma BehindReplayStep(s: System, a: Action)
    requires Inv(s) && BehindReplay(s) && Enabled(s, a) && AgreedStep(s, a)
    ensures BehindReplay(Next(s, a))
  {
    if a.Deliver? {
      ContentDeliver(s, a.count);
      ReadSplits(s.receiver, s.receiver.physical.value, a.count);
    }
  }

  lemma {:induction false} BehindReplayRun(s: System, run: seq<Action>)
    requires Inv(s) && OnTrack(s) && BehindReplay(s)
    requires Legal(s, run) && CleanRun(s, run) && AgreedRun(s, run)
    ensures BehindReplay(After(s, run))
    decreases |run|
  {
    if run != [] {
      OnTrackStep(s, run[0]);
      InvStep(s, run[0]);
      BehindReplayStep(s, run[0]);
      BehindReplayRun(Next(s, run[0]), run[1..]);
    }
  }

  /**
   Over every run of agreed replacements, whatever is acknowledged during a
   replay, directly or deferred, the journal still holds the next chunk.
   */
  lemma ReplayStaysRetained(senderCapacity: nat, receiverCapacity: nat, ackEvery: nat, halfClose: bool,
                            run: seq<Action>)
    requires 0 < senderCapacity && 0 < receiverCapacity
    requires var s := Initial(senderCapacity, receiverCapacity, ackEvery, halfClose);
             Legal(s, run) && CleanRun(s, run) && AgreedRun(s, run)
    ensures var s := After(Initial(senderCapacity, receiverCapacity, ackEvery, halfClose), run);
            s.replacer.Replaying? && !s.sender.closed && s.replacer.offset < s.replacer.snapshotEnd ==>
              CanReplayChunk(s)
  {
    var s := Initial(senderCapacity, receiverCapacity, ackEvery, halfClose);
    InvInitial(senderCapacity, receiverCapacity, ackEvery, halfClose);
    InvRun(s, run);
    BehindReplayRun(s, run);
  }
}
