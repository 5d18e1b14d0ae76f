/** Every step of the delivery system preserves its invariant. */
module DeliveryProofs {
  import opened Common
  import opened ReplayJournal
  import opened StreamRegions
  import opened Delivery

  // ---------------------------------------------------------------------
  // Control is preserved
  // ---------------------------------------------------------------------

  lemma ControlStartWrite(s: System, payload: seq<byte>)
    requires Control(s) && CanStartWrite(s, payload)
    ensures Control(DoStartWrite(s, payload))
  {
  }

  lemma ControlBeginAttempt(s: System)
    requires Control(s) && CanBeginAttempt(s)
    ensures Control(DoBeginAttempt(s))
  {
  }

  lemma ControlAccept(s: System, count: nat)
    requires Control(s) && CanAccept(s, count)
    ensures Control(DoAccept(s, count))
  {
  }

  lemma ControlAttemptAccounted(s: System, transmitted: nat, ack: nat)
    requires Control(s) && s.writer.Attempting?
    requires transmitted == if AttemptCounts(s.sender, s.writer.channel, s.writer.at)
                            then s.writer.at + s.writer.accepted else s.sender.transmitted
    requires ack <= s.receiver.receiveOffset
    ensures Control(s.(sender := s.sender.(transmitted := transmitted, attemptEnd := 0, pendingAck := 0),
                       writer := Settling(s.writer.start, s.writer.end, ack)))
  {
  }

  lemma ControlEndAttempt(s: System, failed: bool)
    requires Control(s) && CanEndAttempt(s)
    ensures Control(DoEndAttempt(s, failed))
  {
    EndAttemptAccounts(s.sender, s.writer.channel, s.writer.at,
                       s.writer.end - s.writer.at, s.writer.accepted, failed);
    var r := DoEndAttempt(s, failed);
    ControlAttemptAccounted(s, r.sender.transmitted, r.writer.ack);
  }

  lemma ControlSettle(s: System)
    requires Control(s) && s.writer.Settling?
    ensures Control(DoSettle(s))
  {
  }

  lemma ControlLoseSender(s: System, channel: ChannelId)
    requires Control(s)
    ensures Control(s.(sender := MarkUnavailable(s.sender, channel)))
  {
  }

  lemma ControlBeginDetach(s: System)
    requires Control(s) && s.replacer.Resting?
    ensures Control(DoBeginDetach(s))
  {
  }

  lemma ControlOpenChannel(s: System, channel: ChannelId, start: nat, halfClose: bool)
    requires Control(s) && CanOpenChannel(s, channel, start)
    ensures Control(DoOpenChannel(s, channel, start, halfClose))
  {
  }

  lemma ControlBeginReplace(s: System, channel: ChannelId, reverseStart: nat)
    requires Control(s) && CanBeginReplace(s, channel, reverseStart)
    ensures Control(DoBeginReplace(s, channel))
  {
  }

  lemma ControlReplayChunk(s: System)
    requires Control(s) && CanReplayChunk(s)
    ensures Control(DoReplayChunk(s))
  {
  }

  lemma ControlFailReplay(s: System, count: nat)
    requires Control(s) && CanFailReplay(s, count)
    ensures Control(DoFailReplay(s, count))
  {
  }

  lemma ControlFailPublish(s: System)
    requires Control(s) && s.replacer.Publishing?
    ensures Control(DoFailPublish(s))
  {
  }

  lemma ControlFinishReplay(s: System)
    requires Control(s) && CanFinishReplay(s)
    ensures Control(DoFinishReplay(s))
  {
  }

  lemma ControlPublish(s: System, reverseStart: nat)
    requires Control(s) && CanPublish(s, reverseStart)
    ensures Control(DoPublish(s, reverseStart)) <==> Exact(s, Publish(reverseStart))
  {
    var r := DoPublish(s, reverseStart);
    assert r.channels[s.replacer.channel].Reach() == s.replacer.offset;
  }

  lemma ControlBeginCloseWrite(s: System)
    requires Control(s) && CanBeginCloseWrite(s)
    ensures Control(DoBeginCloseWrite(s))
  {
  }

  lemma ControlCheckCloseWrite(s: System)
    requires Control(s) && CanCheckCloseWrite(s)
    ensures Control(DoCheckCloseWrite(s))
  {
  }

  lemma ControlSendFin(s: System, accepted: bool)
    requires Control(s) && CanSendFin(s)
    ensures Control(DoSendFin(s, accepted))
  {
  }

  lemma ControlFinishFin(s: System)
    requires Control(s) && s.writer.FinAccepted?
    ensures Control(DoFinishFin(s))
  {
  }

  lemma ControlAcknowledge(s: System, offset: nat)
    requires Control(s) && offset <= s.receiver.receiveOffset
    ensures Control(s.(sender := Ack(s.sender, offset)))
  {
  }

  lemma ControlInstall(s: System, channel: ChannelId, reverseEnd: nat, reverseFin: bool)
    requires Control(s) && CanInstall(s, channel)
    ensures Control(DoInstall(s, channel, reverseEnd, reverseFin))
  {
  }

  /** A read in range splits its chunk between the discard counter and the reader. */
  lemma ReadSplits(e: Endpoint, channel: ChannelId, count: nat)
    requires !e.closed && e.physical == Some(channel)
    requires e.receiveOffset + count - Min(count, e.discard) <= MAX_SEQUENCE
    ensures var r := ReadChunk(e, channel, count);
            && r.error.None? && r.dropped == Min(count, e.discard) && r.kept == count - r.dropped
            && r.endpoint.physical == e.physical && r.endpoint.closed == e.closed
            && r.endpoint.discard == e.discard - r.dropped
            && r.endpoint.receiveOffset == e.receiveOffset + r.kept
  {
  }

  lemma DeliverKeepsSender(s: System, count: nat)
    requires Control(s) && CanDeliver(s, count)
    ensures var r := DoDeliver(s, count);
            SenderOk(r) && WriterOk(r) && ReplacerOk(r)
  {
    var channel := s.receiver.physical.value;
    ReadSplits(s.receiver, channel, count);
    assert s.channels[channel].used;
  }

  lemma DeliverKeepsReceiver(s: System, count: nat)
    requires Control(s) && CanDeliver(s, count)
    ensures var r := DoDeliver(s, count);
            ReceiverOk(r) && FrontierOk(r) && ChannelsOk(r)
  {
    var channel := s.receiver.physical.value;
    ReadSplits(s.receiver, channel, count);
    assert s.channels[channel].used;
  }

  lemma ControlDeliver(s: System, count: nat)
    requires Control(s) && CanDeliver(s, count)
    ensures Control(DoDeliver(s, count))
  {
    DeliverKeepsSender(s, count);
    DeliverKeepsReceiver(s, count);
  }

  lemma ControlLateRead(s: System, channel: ChannelId, count: nat)
    requires Control(s) && CanLateRead(s, channel, count)
    ensures Control(DoLateRead(s, channel, count))
  {
  }

  lemma ControlCloseSender(s: System)
    requires Control(s)
    ensures Control(s.(sender := Close(s.sender)))
  {
  }

  lemma ControlReceiverGone(s: System, receiver: Endpoint)
    requires Control(s)
    requires receiver.receiveOffset == s.receiver.receiveOffset
    requires receiver.physical.None? || receiver == s.receiver
    ensures Control(s.(receiver := receiver))
  {
  }

  predicate WriterAction(a: Action) {
    a.StartWrite? || a.BeginAttempt? || a.Accept? || a.EndAttempt? || a.Settle? || a.Return?
    || a.BeginCloseWrite? || a.CheckCloseWrite? || a.SendFin? || a.FinishFin?
  }

  predicate ReplacerAction(a: Action) {
    a.BeginDetach? || a.EndDetach? || a.BeginReplace? || a.ReplayChunk? || a.FailReplay? || a.FailPublish?
    || a.FinishReplay? || a.Publish?
  }

  lemma ControlWriterStep(s: System, a: Action)
    requires Control(s) && Enabled(s, a) && WriterAction(a)
    ensures Control(Next(s, a))
  {
    match a
    case StartWrite(payload) => ControlStartWrite(s, payload);
    case BeginAttempt => ControlBeginAttempt(s);
    case Accept(count) => ControlAccept(s, count);
    case EndAttempt(failed) => ControlEndAttempt(s, failed);
    case Settle => ControlSettle(s);
    case BeginCloseWrite => ControlBeginCloseWrite(s);
    case CheckCloseWrite => ControlCheckCloseWrite(s);
    case SendFin(accepted) => ControlSendFin(s, accepted);
    case FinishFin => ControlFinishFin(s);
    case _ =>
  }

  lemma ControlReplacerStep(s: System, a: Action)
    requires Control(s) && Enabled(s, a) && ReplacerAction(a)
    ensures Control(Next(s, a)) <==> Exact(s, a)
  {
    match a
    case BeginDetach => ControlBeginDetach(s);
    case BeginReplace(channel, reverseStart) => ControlBeginReplace(s, channel, reverseStart);
    case ReplayChunk => ControlReplayChunk(s);
    case FailReplay(count) => ControlFailReplay(s, count);
    case FailPublish => ControlFailPublish(s);
    case FinishReplay => ControlFinishReplay(s);
    case Publish(reverseStart) => ControlPublish(s, reverseStart);
    case _ =>
  }

  lemma ControlOtherStep(s: System, a: Action)
    requires Control(s) && Enabled(s, a) && !WriterAction(a) && !ReplacerAction(a)
    ensures Control(Next(s, a))
  {
    match a
    case LoseSender(channel) => ControlLoseSender(s, channel);
    case OpenChannel(channel, start, halfClose) => ControlOpenChannel(s, channel, start, halfClose);
    case Acknowledge(offset) => ControlAcknowledge(s, offset);
    case Install(channel, reverseEnd, reverseFin) => ControlInstall(s, channel, reverseEnd, reverseFin);
    case Deliver(count) => ControlDeliver(s, count);
    case LateRead(channel, count) => ControlLateRead(s, channel, count);
    case CloseSender => ControlCloseSender(s);
    case LoseReceiver => ControlReceiverGone(s, Detach(s.receiver));
    case CloseReceiver => ControlReceiverGone(s, Close(s.receiver));
    case _ =>
  }

  // ---------------------------------------------------------------------
  // Content is preserved
  // ---------------------------------------------------------------------

  lemma SliceExtends(log: seq<byte>, start: nat, reach: nat, further: nat)
    requires start <= reach <= further <= |log|
    ensures log[start..reach] + log[reach..further] == log[start..further]
  {
  }

  /** What a replay chunk copies is the log from the replay offset. */
  lemma ChunkIsLogSlice(s: System)
    requires Inv(s) && s.replacer.Replaying?
    ensures s.replacer.offset + |NextChunk(s)| <= |s.log|
    ensures NextChunk(s) == s.log[s.replacer.offset..s.replacer.offset + |NextChunk(s)|]
    ensures s.sender.journal.OffsetError(s.replacer.offset).None? ==>
              |NextChunk(s)| == Min(s.replacer.buffer, |s.log| - s.replacer.offset)
  {
  }

  /** No step but a write, a replay or a read touches what the parties hold. */
  lemma ContentUntouched(s: System, r: System)
    requires Content(s)
    requires r.log == s.log && r.sender.journal == s.sender.journal
    requires r.delivered == s.delivered && r.receiver.receiveOffset == s.receiver.receiveOffset
    requires forall c :: c in r.channels ==>
               && c in s.channels
               && r.channels[c].start == s.channels[c].start && r.channels[c].carried == s.channels[c].carried
    ensures Content(r)
  {
  }

  /** An acknowledgement only drops a prefix of what the journal retains. */
  lemma ContentAcknowledged(s: System, r: System, offset: nat)
    requires Content(s) && s.sender.journal.Valid() && s.sender.journal.end == |s.log|
    requires r.sender.journal == s.sender.journal || r.sender.journal == s.sender.journal.Ack(offset)
    requires r.log == s.log && r.delivered == s.delivered
    requires r.receiver.receiveOffset == s.receiver.receiveOffset
    requires forall c :: c in r.channels ==>
               && c in s.channels
               && r.channels[c].start == s.channels[c].start && r.channels[c].carried == s.channels[c].carried
    ensures Content(r)
  {
  }

  lemma ContentStartWrite(s: System, payload: seq<byte>)
    requires Inv(s) && CanStartWrite(s, payload)
    ensures Content(DoStartWrite(s, payload))
  {
    var log := s.log + payload;
    assert s.log[s.sender.journal.base..] + payload == log[s.sender.journal.base..];
    forall c | c in s.channels
      ensures CarriesLog(log, s.channels[c])
    {
      assert log[s.channels[c].start..s.channels[c].Reach()] == s.log[s.channels[c].start..s.channels[c].Reach()];
    }
  }

  lemma ContentAccept(s: System, count: nat)
    requires Inv(s) && CanAccept(s, count)
    ensures Content(DoAccept(s, count))
  {
    var c := s.channels[s.writer.channel];
    SliceExtends(s.log, c.start, c.Reach(), c.Reach() + count);
  }

  lemma ContentReplay(s: System, bytes: seq<byte>)
    requires Inv(s) && s.replacer.Replaying? && bytes <= NextChunk(s)
    ensures var c := s.channels[s.replacer.channel];
            CarriesLog(s.log, c.(carried := c.carried + bytes))
  {
    var c := s.channels[s.replacer.channel];
    ChunkIsLogSlice(s);
    assert bytes == s.log[c.Reach()..c.Reach() + |bytes|];
    SliceExtends(s.log, c.start, c.Reach(), c.Reach() + |bytes|);
  }

  lemma NextBytes(log: seq<byte>, delivered: seq<byte>, c: Channel, dropped: nat, count: nat)
    requires CarriesLog(log, c) && delivered <= log
    requires dropped <= count && c.consumed + count <= |c.carried|
    requires dropped < count ==> c.start + c.consumed + dropped == |delivered|
    ensures delivered + c.carried[c.consumed + dropped..c.consumed + count] <= log
  {
    var from := c.start + c.consumed + dropped;
    assert c.carried[c.consumed + dropped..c.consumed + count] == log[from..from + count - dropped];
    if dropped < count {
      assert log[..from] + log[from..from + count - dropped] == log[..from + count - dropped];
    }
  }

  /** The bytes a read delivers are the next bytes of the log, and the offset never overflows. */
  lemma ContentDeliver(s: System, count: nat)
    requires Inv(s) && CanDeliver(s, count)
    ensures Content(DoDeliver(s, count))
    ensures ReadChunk(s.receiver, s.receiver.physical.value, count).error.None?
  {
    var channel := s.receiver.physical.value;
    var c := s.channels[channel];
    ReadSplits(s.receiver, channel, count);
    NextBytes(s.log, s.delivered, c, Min(count, s.receiver.discard), count);
  }

  lemma ContentWriterStep(s: System, a: Action)
    requires Inv(s) && Enabled(s, a) && WriterAction(a)
    ensures Content(Next(s, a))
  {
    if a.StartWrite? {
      ContentStartWrite(s, a.payload);
    } else if a.Accept? {
      ContentAccept(s, a.count);
    } else if a.Settle? {
      ContentAcknowledged(s, Next(s, a), s.writer.ack);
    } else {
      ContentUntouched(s, Next(s, a));
    }
  }

  lemma ContentReplacerStep(s: System, a: Action)
    requires Inv(s) && Enabled(s, a) && ReplacerAction(a)
    ensures Content(Next(s, a))
  {
    if a.BeginReplace? {
      ContentAcknowledged(s, Next(s, a), s.channels[a.channel].start);
    } else if a.ReplayChunk? {
      ContentReplay(s, NextChunk(s));
    } else if a.FailReplay? {
      ContentReplay(s, NextChunk(s)[..a.count]);
    } else {
      ContentUntouched(s, Next(s, a));
    }
  }

  lemma ContentOpened(s: System, channel: ChannelId, start: nat, halfClose: bool)
    requires Inv(s) && CanOpenChannel(s, channel, start)
    ensures Content(DoOpenChannel(s, channel, start, halfClose))
  {
    assert s.log[start..start] == [];
  }

  lemma ContentClosed(s: System, r: System)
    requires Content(s) && r.sender.journal == s.sender.journal.Close()
    requires r.log == s.log && r.channels == s.channels
    requires r.delivered == s.delivered && r.receiver == s.receiver
    ensures Content(r)
  {
  }

  lemma ContentOtherStep(s: System, a: Action)
    requires Inv(s) && Enabled(s, a) && !WriterAction(a) && !ReplacerAction(a)
    ensures Content(Next(s, a))
  {
    if a.Acknowledge? {
      ContentAcknowledged(s, Next(s, a), a.offset);
    } else if a.Deliver? {
      ContentDeliver(s, a.count);
    } else if a.OpenChannel? {
      ContentOpened(s, a.channel, a.start, a.halfClose);
    } else if a.CloseSender? {
      ContentClosed(s, Next(s, a));
    } else {
      ContentUntouched(s, Next(s, a));
    }
  }

  // ---------------------------------------------------------------------
  // The whole invariant
  // ---------------------------------------------------------------------

  /** Every step keeps the invariant, except exactly the publication of a replay that ran past its snapshot. */
  lemma InvStep(s: System, a: Action)
    requires Inv(s) && Enabled(s, a)
    ensures Inv(Next(s, a)) <==> Exact(s, a)
  {
    if WriterAction(a) {
      ControlWriterStep(s, a);
      ContentWriterStep(s, a);
    } else if ReplacerAction(a) {
      ControlReplacerStep(s, a);
      ContentReplacerStep(s, a);
    } else {
      ControlOtherStep(s, a);
      ContentOtherStep(s, a);
    }
  }

  lemma InvInitial(senderCapacity: nat, receiverCapacity: nat, ackEvery: nat, halfClose: bool)
    requires 0 < senderCapacity && 0 < receiverCapacity
    ensures Inv(Initial(senderCapacity, receiverCapacity, ackEvery, halfClose))
    ensures HalfClosed(Initial(senderCapacity, receiverCapacity, ackEvery, halfClose))
  {
  }
}
