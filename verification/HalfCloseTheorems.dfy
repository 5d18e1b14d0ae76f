/** Half-close over every run of failures and replacements, and the writes that break its order. */
module HalfCloseTheorems {
  import opened Common
  import opened ReplayJournal
  import opened StreamRegions
  import opened Delivery
  import opened DeliveryProofs
  import opened DeliveryTheorems

  // ---------------------------------------------------------------------
  // Half-close
  // ---------------------------------------------------------------------

  /** A half-close is requested only while no replay is behind the journal. */
  predicate CarefulClose(s: System, a: Action) {
    a.BeginCloseWrite? && s.replacer.Replaying? ==> s.replacer.snapshotEnd == |s.log|
  }

  ghost predicate CarefulRun(s: System, run: seq<Action>)
    requires Legal(s, run)
    decreases |run|
  {
    run == [] || (CarefulClose(s, run[0]) && CarefulRun(Next(s, run[0]), run[1..]))
  }

  /** A replay under way when the half-close is known covers the whole journal. */
  ghost predicate FinCovered(s: System) {
    s.replacer.Replaying? && s.sender.localFin ==> s.replacer.snapshotEnd == |s.log|
  }

  lemma HalfClosedWriterStep(s: System, a: Action)
    requires Control(s) && HalfClosed(s) && FinCovered(s) && WriterAction(a)
    requires Enabled(s, a) && CarefulClose(s, a)
    ensures HalfClosed(Next(s, a)) && FinCovered(Next(s, a))
  {
  }

  lemma HalfClosedReplacerStep(s: System, a: Action)
    requires Control(s) && HalfClosed(s) && FinCovered(s) && OnTrack(s) && ReplacerAction(a)
    requires Enabled(s, a)
    ensures HalfClosed(Next(s, a)) && FinCovered(Next(s, a))
  {
  }

  lemma HalfClosedOtherStep(s: System, a: Action)
    requires Control(s) && HalfClosed(s) && FinCovered(s) && !WriterAction(a) && !ReplacerAction(a)
    requires Enabled(s, a)
    ensures HalfClosed(Next(s, a)) && FinCovered(Next(s, a))
  {
  }

  lemma HalfClosedStep(s: System, a: Action)
    requires Control(s) && HalfClosed(s) && FinCovered(s) && OnTrack(s)
    requires Enabled(s, a) && CarefulClose(s, a)
    ensures HalfClosed(Next(s, a)) && FinCovered(Next(s, a))
  {
    if WriterAction(a) {
      HalfClosedWriterStep(s, a);
    } else if ReplacerAction(a) {
      HalfClosedReplacerStep(s, a);
    } else {
      HalfClosedOtherStep(s, a);
    }
  }

  lemma {:induction false} HalfClosedRun(s: System, run: seq<Action>)
    requires Inv(s) && HalfClosed(s) && FinCovered(s) && OnTrack(s)
    requires Legal(s, run) && CleanRun(s, run) && CarefulRun(s, run)
    ensures HalfClosed(After(s, run))
    decreases |run|
  {
    if run != [] {
      OnTrackStep(s, run[0]);
      InvStep(s, run[0]);
      HalfClosedStep(s, run[0]);
      HalfClosedRun(Next(s, run[0]), run[1..]);
    }
  }

  /** A replacement whose replay ends after a local half-close carries the half-close too. */
  lemma ReplacementRepeatsFin(s: System, reverseStart: nat)
    requires Control(s) && CanFinishReplay(s) && s.sender.localFin
    requires CanPublish(DoFinishReplay(s), reverseStart)
    ensures var r := DoPublish(DoFinishReplay(s), reverseStart);
            && r.sender.physical == Some(s.replacer.channel) && r.sender.finTransmitted
            && r.channels[s.replacer.channel].fin == s.channels[s.replacer.channel].halfClose
  {
  }

  /** Every returned write has transmitted its bytes. */
  predicate CompletedReturn(s: System, a: Action) {
    a.Return? && s.writer.Writing? ==> s.writer.end <= s.sender.transmitted
  }

  /** Outside a write, everything accepted has been transmitted. */
  ghost predicate Settled(s: System) {
    match s.writer
    case Writing(_, end) => end == |s.log|
    case Attempting(_, end, _, _, _) => end == |s.log|
    case Settling(_, end, _) => end == |s.log|
    case _ => s.sender.transmitted == |s.log|
  }

  lemma SettledWriterStep(s: System, a: Action)
    requires Control(s) && Settled(s) && Enabled(s, a) && CompletedReturn(s, a) && WriterAction(a)
    ensures Settled(Next(s, a)) && CarefulClose(s, a)
  {
  }

  /** If every write that returns has been transmitted, every half-close is careful. */
  lemma SettledStep(s: System, a: Action)
    requires Control(s) && Settled(s) && Enabled(s, a) && CompletedReturn(s, a)
    ensures Settled(Next(s, a)) && CarefulClose(s, a)
  {
    if WriterAction(a) {
      SettledWriterStep(s, a);
    }
  }

  ghost predicate CompletedRun(s: System, run: seq<Action>)
    requires Legal(s, run)
    decreases |run|
  {
    run == [] || (CompletedReturn(s, run[0]) && CompletedRun(Next(s, run[0]), run[1..]))
  }

  /** A writer that gives no write up half-way never requests a half-close behind a replay. */
  lemma {:induction false} CompletedIsCareful(s: System, run: seq<Action>)
    requires Inv(s) && OnTrack(s) && Settled(s)
    requires Legal(s, run) && CleanRun(s, run) && CompletedRun(s, run)
    ensures CarefulRun(s, run)
    decreases |run|
  {
    if run != [] {
      OnTrackStep(s, run[0]);
      InvStep(s, run[0]);
      SettledStep(s, run[0]);
      CompletedIsCareful(Next(s, run[0]), run[1..]);
    }
  }

  /**
   Half-close order (section 3.6 of RFC 9293): over every run in which no write
   is given up half-way, a channel that has been half-closed has carried every
   byte ever written from its start on.
   */
  lemma HalfCloseFollowsEveryByte(senderCapacity: nat, receiverCapacity: nat, ackEvery: nat, halfClose: bool,
                                  run: seq<Action>, channel: ChannelId)
    requires 0 < senderCapacity && 0 < receiverCapacity
    requires var s := Initial(senderCapacity, receiverCapacity, ackEvery, halfClose);
             Legal(s, run) && CleanRun(s, run) && CompletedRun(s, run)
    ensures var s := After(Initial(senderCapacity, receiverCapacity, ackEvery, halfClose), run);
            channel in s.channels && s.channels[channel].fin ==>
              && s.sender.localFin && s.channels[channel].start <= |s.log|
              && s.channels[channel].carried == s.log[s.channels[channel].start..]
  {
    var s := Initial(senderCapacity, receiverCapacity, ackEvery, halfClose);
    InvInitial(senderCapacity, receiverCapacity, ackEvery, halfClose);
    InvRun(s, run);
    CompletedIsCareful(s, run);
    HalfClosedRun(s, run);
    var r := After(s, run);
    if channel in r.channels && r.channels[channel].fin {
      assert CarriesLog(r.log, r.channels[channel]);
    }
  }

  /**
   A half-close reported as done is done: over every run, whenever the sender
   counts its FIN as transmitted, the current channel has been given it, or
   cannot be half-closed at all.
   */
  lemma SettledFinIsCarried(senderCapacity: nat, receiverCapacity: nat, ackEvery: nat, halfClose: bool,
                            run: seq<Action>)
    requires 0 < senderCapacity && 0 < receiverCapacity
    requires var s := Initial(senderCapacity, receiverCapacity, ackEvery, halfClose);
             Legal(s, run) && CleanRun(s, run)
    ensures var s := After(Initial(senderCapacity, receiverCapacity, ackEvery, halfClose), run);
            FinSettled(s.sender) && s.sender.physical.Some? ==>
              && s.sender.physical.value in s.channels
              && (s.channels[s.sender.physical.value].fin || !s.channels[s.sender.physical.value].halfClose)
  {
    var s := Initial(senderCapacity, receiverCapacity, ackEvery, halfClose);
    InvInitial(senderCapacity, receiverCapacity, ackEvery, halfClose);
    InvRun(s, run);
    var r := After(s, run);
    if r.sender.physical.Some? && !r.sender.closed {
      assert PhysicalOk(r, r.sender.physical.value);
    }
  }

  /** At the end of a replay the half-close is in order exactly when the replay read the whole journal. */
  lemma FinInOrder(s: System)
    requires Control(s) && HalfClosed(s) && CanFinishReplay(s)
    requires s.sender.localFin && s.channels[s.replacer.channel].halfClose
    ensures HalfClosed(DoFinishReplay(s)) <==> s.replacer.offset == |s.log|
  {
    var r := DoFinishReplay(s);
    assert r.channels[s.replacer.channel].fin;
    assert s.channels[s.replacer.channel].Reach() == s.replacer.offset;
  }

  /** A replay that has whole chunks left and all of them retained. */
  ghost predicate WholeReplay(s: System) {
    && s.replacer.Replaying? && !s.sender.closed
    && s.sender.journal.base <= s.replacer.offset <= s.replacer.snapshotEnd
    && ChunksLeft(s.replacer.snapshotEnd - s.replacer.offset, s.replacer.buffer)
  }

  ghost predicate SameHalfClose(s: System, r: System) {
    && OnlyReplayed(s, r)
    && r.channels[r.replacer.channel].halfClose == s.channels[s.replacer.channel].halfClose
  }

  lemma ReplayWholeChunk(s: System)
    requires Inv(s) && WholeReplay(s) && s.replacer.offset < s.replacer.snapshotEnd
    ensures CanReplayChunk(s)
    ensures var r := DoReplayChunk(s);
            WholeReplay(r) && SameHalfClose(s, r) && s.replacer.offset < r.replacer.offset
  {
    ChunkIsLogSlice(s);
    ChunkTaken(s.replacer.snapshotEnd - s.replacer.offset, s.replacer.buffer, |s.log| - s.replacer.offset);
  }

  /** A replay with whole chunks left ends at its snapshot when nothing else happens. */
  lemma {:induction false} ReplayToEnd(s: System) returns (run: seq<Action>, r: System)
    requires Inv(s) && WholeReplay(s)
    ensures Legal(s, run) && r == After(s, run)
    ensures Inv(r) && SameHalfClose(s, r) && r.replacer.offset == r.replacer.snapshotEnd
    decreases |s.log| - s.replacer.offset
  {
    if s.replacer.offset == s.replacer.snapshotEnd {
      run, r := [], s;
    } else {
      ReplayWholeChunk(s);
      InvStep(s, ReplayChunk);
      var rest;
      rest, r := ReplayToEnd(Next(s, ReplayChunk));
      LegalCons(s, ReplayChunk, rest);
      run := [ReplayChunk] + rest;
    }
  }

  lemma FinishOvertakes(s: System)
    requires Control(s) && CanFinishReplay(s) && s.sender.localFin && s.channels[s.replacer.channel].halfClose
    requires s.channels[s.replacer.channel].Reach() < |s.log|
    ensures !HalfClosed(DoFinishReplay(s))
  {
    var r := DoFinishReplay(s);
    assert r.channels[s.replacer.channel].fin && r.channels[s.replacer.channel].Reach() < |r.log|;
  }

  /**
   The condition of `HalfClosedRun` is needed: a half-close requested while a
   replay is behind the journal can overtake what was written since.
   */
  lemma CarelessCloseBreaksOrder(s: System) returns (run: seq<Action>)
    requires Inv(s) && OnTrack(s) && CanBeginCloseWrite(s) && !CarefulClose(s, BeginCloseWrite)
    requires s.sender.journal.base <= s.replacer.offset && s.channels[s.replacer.channel].halfClose
    ensures Legal(s, [BeginCloseWrite] + run) && !HalfClosed(After(s, [BeginCloseWrite] + run))
  {
    InvStep(s, BeginCloseWrite);
    var s1 := Next(s, BeginCloseWrite);
    var chunks, s2 := ReplayToEnd(s1);
    LegalCons(s2, FinishReplay, []);
    LegalConcat(s1, chunks, [FinishReplay]);
    run := chunks + [FinishReplay];
    LegalCons(s, BeginCloseWrite, run);
    FinishOvertakes(s2);
  }

  /** A write abandoned during a replay, followed by a half-close, is overtaken by the half-close. */
  lemma AbandonedWriteLosesToFin(s: System, x: byte) returns (run: seq<Action>)
    requires Control(s) && CanFinishReplay(s) && s.replacer.offset == |s.log|
    requires CanStartWrite(s, [x]) && s.channels[s.replacer.channel].halfClose
    ensures Legal(s, run)
    ensures var r := After(s, run);
            && s.replacer.channel in r.channels && r.channels[s.replacer.channel].fin
            && r.channels[s.replacer.channel].Reach() < |r.log|
  {
    var s1 := DoStartWrite(s, [x]);
    var s2 := s1.(writer := Idle);
    var s3 := DoBeginCloseWrite(s2);
    var s4 := DoFinishReplay(s3);
    LegalCons(s3, FinishReplay, []);
    LegalCons(s2, BeginCloseWrite, [FinishReplay]);
    LegalCons(s1, Return, [BeginCloseWrite, FinishReplay]);
    LegalCons(s, StartWrite([x]), [Return, BeginCloseWrite, FinishReplay]);
    run := [StartWrite([x])] + [Return, BeginCloseWrite, FinishReplay];
    assert After(s, run) == s4;
  }

  /** That is reachable from the very start: one byte given up during a replacement is enough. */
  lemma FinCanOvertake(senderCapacity: nat, receiverCapacity: nat, ackEvery: nat, halfClose: bool, x: byte)
    returns (run: seq<Action>)
    requires 0 < senderCapacity && 0 < receiverCapacity
    ensures Legal(Initial(senderCapacity, receiverCapacity, ackEvery, halfClose), run)
    ensures var r := After(Initial(senderCapacity, receiverCapacity, ackEvery, halfClose), run);
            1 in r.channels && r.channels[1].fin && r.channels[1].Reach() < |r.log|
  {
    var s := Initial(senderCapacity, receiverCapacity, ackEvery, halfClose);
    InvInitial(senderCapacity, receiverCapacity, ackEvery, halfClose);
    InvStep(s, LoseSender(0));
    var s1 := Next(s, LoseSender(0));
    var open := OpenChannel(1, 0, true);
    InvStep(s1, open);
    var s2 := Next(s1, open);
    var begin := BeginReplace(1, 0);
    InvStep(s2, begin);
    var rest := AbandonedWriteLosesToFin(Next(s2, begin), x);
    LegalCons(s2, begin, rest);
    LegalCons(s1, open, [begin] + rest);
    LegalCons(s, LoseSender(0), [open] + ([begin] + rest));
    run := [LoseSender(0)] + ([open] + ([begin] + rest));
  }
}
