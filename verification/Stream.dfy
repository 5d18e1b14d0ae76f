/**
 The resumable stream as the object it is: one stable byte stream over a
 sequence of physical streams, with a replay journal.  Every method is one
 critical section, or a loop over critical sections and the answers of a
 physical stream; each acts on the stream's value as `StreamRegions` says.
 */
module Resumable {
  import opened Common
  import opened ReplayJournal
  import opened StreamRegions

  /** The answer of one physical `Write`: the reported count and whether it failed. */
  datatype Answer = Answer(count: int, failed: bool, recoverable: bool)

  /** How many of `length` bytes a retried write gets through before it is done, fails or makes no progress. */
  function Pushed(length: nat, answers: seq<Answer>): (n: nat)
    ensures n <= length
    decreases |answers|
  {
    if answers == [] then 0
    else
      var count := SaneCount(length, answers[0].count);
      if count == length || count == 0 || answers[0].failed || answers[0].count != count then count
      else count + Pushed(length - count, answers[1..])
  }

  /** How many of `length` bytes `writeAll` gets through, for which a failure always stops it. */
  function Taken(length: nat, answers: seq<Answer>): (n: nat)
    ensures n <= length
    decreases |answers|
  {
    if length == 0 || answers == [] || !(0 < answers[0].count <= length) then 0
    else if answers[0].failed then answers[0].count
    else answers[0].count + Taken(length - answers[0].count, answers[1..])
  }

  predicate TakesAll(length: nat, answers: seq<Answer>)
    decreases |answers|
  {
    length == 0
    || (answers != [] && 0 < answers[0].count <= length && !answers[0].failed
        && TakesAll(length - answers[0].count, answers[1..]))
  }

  /** What has been replayed is the front of what is retained, up to `at`. */
  ghost predicate ReplayedTo(j: JournalView, replayed: seq<byte>, at: nat) {
    j.base <= at <= j.base + |j.retained| && replayed == j.retained[..at - j.base]
  }

  lemma ReplayedMore(j: JournalView, replayed: seq<byte>, at: nat, bytes: seq<byte>, limit: nat)
    requires j.Valid() && j.OffsetError(at).None? && ReplayedTo(j, replayed, at) && bytes <= j.Slice(at, limit)
    ensures ReplayedTo(j, replayed + bytes, at + |bytes|)
  {
  }

  lemma ReplayedFront(j: JournalView, replayed: seq<byte>, at: nat)
    requires ReplayedTo(j, replayed, at)
    ensures replayed <= j.retained && (at == j.base + |j.retained| ==> replayed == j.retained)
  {
  }

  class ResumableStream {
    const journal: Journal
    const ackEvery: nat
    var physical: Option<ChannelId>
    var transmitted: nat
    var receiveOffset: nat
    var lastNotified: nat
    var localFin: bool
    var finTransmitted: bool
    var discard: nat
    var attemptEnd: nat
    var pendingAck: nat
    var closed: bool

    ghost predicate Valid()
      reads this, journal, journal.buffer
    {
      journal.Valid()
    }

    ghost function View(): (e: Endpoint)
      reads this, journal, journal.buffer
      requires Valid()
      ensures e.journal.Valid()
    {
      Endpoint(journal.View(), physical, transmitted, receiveOffset, lastNotified, localFin, finTransmitted,
               discard, attemptEnd, pendingAck, ackEvery, closed)
    }

    constructor (capacity: nat, ackEvery: nat, initial: ChannelId)
      requires 0 < capacity <= MAX_JOURNAL_CAPACITY && ackEvery <= capacity
      ensures Valid() && fresh(journal) && fresh(journal.buffer)
      ensures View() == Fresh(capacity, ackEvery, initial)
    {
      journal := new Journal(capacity);
      this.ackEvery := ackEvery;
      physical := Some(initial);
      transmitted, receiveOffset, lastNotified := 0, 0, 0;
      localFin, finTransmitted, discard := false, false, 0;
      attemptEnd, pendingAck, closed := 0, 0, false;
    }

    // -------------------------------------------------------------------
    // Write
    // -------------------------------------------------------------------

    method StartWrite(payload: seq<byte>) returns (start: nat, end: nat, error: Option<StreamError>)
      requires Valid()
      modifies journal, journal.buffer
      ensures Valid() && journal.buffer == old(journal.buffer)
      ensures error == StartWriteError(old(View()), payload)
      ensures View() == StreamRegions.StartWrite(old(View()), payload)
      ensures error.None? ==> start == old(journal.end) && end == start + |payload| == journal.end
    {
      start, end := 0, 0;
      if closed {
        return 0, 0, Some(Closed);
      }
      if localFin {
        return 0, 0, Some(ClosedPipe);
      }
      var failure;
      start, end, failure := journal.Append(payload);
      match failure {
        case Some(e) => error := Some(JournalFailure(e));
        case None => error := None;
      }
    }

    method BeginAttempt(channel: ChannelId, at: nat, end: nat) returns (started: bool)
      requires Valid()
      modifies this`attemptEnd
      ensures Valid() && started == CanAttempt(old(View()), channel, at)
      ensures View() == if started then StreamRegions.BeginAttempt(old(View()), end) else old(View())
    {
      started := !closed && physical == Some(channel) && transmitted == at;
      if started {
        attemptEnd := end;
      }
    }

    method EndAttempt(channel: ChannelId, at: nat, requested: nat, n: int, failed: bool)
      returns (accepted: nat, failing: bool, deferredAck: nat, invalidAck: bool)
      requires Valid()
      modifies this`transmitted, this`attemptEnd, this`pendingAck
      ensures Valid()
      ensures AttemptResult(View(), accepted, failing, deferredAck, invalidAck)
           == StreamRegions.EndAttempt(old(View()), channel, at, requested, n, failed)
    {
      accepted, failing := 0, failed;
      if n < 0 || n > requested {
        failing := true;
      } else {
        accepted := n;
      }
      var overflow := CountAttempt(channel, at, accepted);
      if overflow {
        accepted, failing := 0, true;
      }
      deferredAck, invalidAck := SettleAttempt(requested, accepted, failing);
    }

    method CountAttempt(channel: ChannelId, at: nat, count: nat) returns (overflow: bool)
      requires Valid()
      modifies this`transmitted
      ensures Valid() && overflow == AttemptOverflows(old(View()), channel, at, count)
      ensures View() == StreamRegions.CountAttempt(old(View()), channel, at, if overflow then 0 else count)
    {
      overflow := false;
      if !closed && (physical == Some(channel) || physical == None) && transmitted == at {
        if transmitted <= MAX_SEQUENCE && count > MAX_SEQUENCE - transmitted {
          overflow := true;
        } else {
          transmitted := transmitted + count;
        }
      }
    }

    method SettleAttempt(requested: nat, accepted: nat, failing: bool) returns (deferredAck: nat, invalidAck: bool)
      requires Valid()
      modifies this`attemptEnd, this`pendingAck
      ensures Valid()
      ensures AttemptResult(View(), accepted, failing, deferredAck, invalidAck)
           == StreamRegions.SettleAttempt(old(View()), requested, accepted, failing)
    {
      deferredAck, invalidAck := 0, false;
      if attemptEnd != 0 {
        if pendingAck != 0 {
          if pendingAck <= transmitted {
            deferredAck := pendingAck;
          } else if failing || accepted != requested {
            invalidAck := true;
          }
        }
        attemptEnd, pendingAck := 0, 0;
      }
    }

    /** `ackJournal`: a deferred acknowledgement at or below the base is already covered. */
    method AckJournal(offset: nat, deferred: bool) returns (error: Option<JournalError>)
      requires Valid()
      modifies journal, journal.buffer
      ensures Valid() && journal.buffer == old(journal.buffer)
      ensures View() == if deferred then DeferredAck(old(View()), offset)
                        else old(View()).(journal := old(View()).journal.Ack(offset))
      ensures error == if deferred && offset <= old(journal.base) then None
                       else old(View()).journal.OffsetError(offset)
    {
      if deferred && offset <= journal.base {
        return None;
      }
      error := journal.Ack(offset);
    }

    method Ack(offset: nat) returns (error: Option<StreamError>)
      requires Valid()
      modifies this`pendingAck, journal, journal.buffer
      ensures Valid() && journal.buffer == old(journal.buffer)
      ensures View() == StreamRegions.Ack(old(View()), offset)
      ensures error.None? <==>
                && !old(closed)
                && if offset > old(transmitted) then offset <= old(attemptEnd)
                   else !old(journal.closed) && old(journal.base) <= offset <= old(journal.end)
      ensures error.Some? ==> View() == old(View())
      ensures !old(closed) && !old(journal.closed) && old(journal.base) <= offset <= old(transmitted)
              && offset <= old(journal.end) ==>
                error.None? && Freed(old(journal.View()), journal.View(), offset)
      ensures !old(closed) && old(transmitted) < offset <= old(attemptEnd) ==>
                error.None? && pendingAck >= offset && journal.View() == old(journal.View())
    {
      if !closed && !journal.closed && journal.base <= offset <= transmitted && offset <= journal.end {
        AckFrees(View(), offset, []);
      }
      if closed {
        return Some(Closed);
      }
      if offset > transmitted {
        if attemptEnd != 0 && offset <= attemptEnd {
          if offset > pendingAck {
            pendingAck := offset;
          }
          return None;
        }
        return Some(State);
      }
      var failure := AckJournal(offset, false);
      match failure {
        case Some(e) => error := Some(JournalFailure(e));
        case None => error := None;
      }
    }

    /**
     A returned write as a whole: it is accounted for, and an acknowledgement
     that came in while it was under way is applied to the journal.
     */
    method SettleWrite(channel: ChannelId, at: nat, requested: nat, n: int, failed: bool)
      returns (accepted: nat, failing: bool, invalidAck: bool, error: Option<JournalError>)
      requires Valid()
      modifies this`transmitted, this`attemptEnd, this`pendingAck, journal, journal.buffer
      ensures Valid() && journal.buffer == old(journal.buffer)
      ensures var r := StreamRegions.EndAttempt(old(View()), channel, at, requested, n, failed);
              && accepted == r.accepted && failing == r.failed && invalidAck == r.invalidAck
              && View() == if r.deferredAck == 0 then r.endpoint else DeferredAck(r.endpoint, r.deferredAck)
      ensures !journal.closed && 0 < old(attemptEnd) && old(journal.base) <= old(pendingAck) <= transmitted
              && 0 < old(pendingAck) <= old(journal.end) ==>
                error.None? && Freed(old(journal.View()), journal.View(), old(pendingAck))
      ensures old(pendingAck) == 0 || transmitted < old(pendingAck) ==> journal.View() == old(journal.View())
      ensures old(attemptEnd) != 0 ==> attemptEnd == 0 && pendingAck == 0
    {
      ghost var before := journal.View();
      var deferredAck;
      accepted, failing, deferredAck, invalidAck := EndAttempt(channel, at, requested, n, failed);
      error := None;
      if deferredAck != 0 {
        if !journal.closed && journal.base <= deferredAck <= journal.end {
          RetiringFrees(before, deferredAck);
          assert before.Ack(before.base) == before;
        }
        error := AckJournal(deferredAck, true);
      }
    }

    /** One attempt: the write is announced, answered and accounted for. */
    method WriteOnce(channel: ChannelId, requested: nat, answer: Answer) returns (accepted: nat, failing: bool)
      requires Valid() && !closed && physical == Some(channel)
      requires pendingAck == 0 && 0 < transmitted + requested <= MAX_SEQUENCE
      modifies this`transmitted, this`attemptEnd, this`pendingAck
      ensures attemptEnd == 0 && pendingAck == 0
      ensures accepted == SaneCount(requested, answer.count)
      ensures failing == (answer.failed || answer.count != accepted)
      ensures transmitted == old(transmitted) + accepted
    {
      var at := transmitted;
      var started := BeginAttempt(channel, at, at + requested);
      EndAttemptAccounts(View(), channel, at, requested, answer.count, answer.failed);
      var deferredAck, invalidAck;
      accepted, failing, deferredAck, invalidAck :=
        EndAttempt(channel, at, requested, answer.count, answer.failed);
    }

    /**
     The whole of `Write` against the answers of one physical stream, while
     nothing else touches the stream.  Running out of answers stands for a
     cancelled wait.  What the physical stream took is the front of the
     payload, and the count returned says how much of it.
     */
    method Write(payload: seq<byte>, answers: seq<Answer>) returns (n: nat, error: Option<StreamError>, sent: seq<byte>)
      requires Valid()
      requires attemptEnd == 0 && pendingAck == 0
      requires closed == journal.closed && transmitted <= journal.end
      modifies this, journal, journal.buffer
      ensures Valid() && attemptEnd == 0 && pendingAck == 0
      ensures n <= |payload| && sent == payload[..n]
      ensures error.None? ==> n == |payload|
      ensures journal.View() == if payload == [] || old(closed) || old(localFin) then old(journal.View())
                                else old(journal.View()).Append(payload)
      ensures payload != [] && StartWriteError(old(View()), payload).Some? ==>
                error == StartWriteError(old(View()), payload) && n == 0
      ensures payload != [] && StartWriteError(old(View()), payload).None? ==>
                n == if old(physical) == None || old(transmitted) < old(journal.end) then 0
                     else Pushed(|payload|, answers)
      ensures closed == old(closed) && localFin == old(localFin) && receiveOffset == old(receiveOffset)
      ensures transmitted == old(transmitted) + n
      ensures error.None? && payload != [] ==> transmitted == journal.end
    {
      n, sent := 0, [];
      if |payload| == 0 {
        return 0, None, [];
      }
      var start, end, refused := StartWrite(payload);
      if refused.Some? {
        return 0, refused, [];
      }
      if transmitted < start {
        return 0, if physical == None then Some(Cancelled) else Some(State), [];
      }
      n, error, sent := Transmit(payload, start, answers);
    }

    /** The loop of `Write`, once the payload is in the journal. */
    method Transmit(payload: seq<byte>, start: nat, answers: seq<Answer>)
      returns (n: nat, error: Option<StreamError>, sent: seq<byte>)
      requires Valid() && !closed && attemptEnd == 0 && pendingAck == 0
      requires transmitted == start && payload != [] && start + |payload| <= MAX_SEQUENCE
      modifies this`transmitted, this`attemptEnd, this`pendingAck, this`physical, this`finTransmitted
      ensures Valid() && attemptEnd == 0 && pendingAck == 0
      ensures n <= |payload| && sent == payload[..n]
      ensures error.None? <==> n == |payload|
      ensures n == if old(physical) == None then 0 else Pushed(|payload|, answers)
      ensures transmitted == start + n
    {
      var end := start + |payload|;
      var next := 0;
      sent := [];
      while true
        invariant attemptEnd == 0 && pendingAck == 0
        invariant 0 <= next <= |answers|
        invariant start <= transmitted < end
        invariant transmitted == start + |sent| && sent == payload[..|sent|]
        invariant |sent| + (if physical == None then 0 else Pushed(|payload| - |sent|, answers[next..]))
               == if old(physical) == None then 0 else Pushed(|payload|, answers)
        decreases |answers| - next
      {
        if physical == None || next == |answers| {
          return WrittenForRange(start, end, transmitted), Some(Cancelled), sent;
        }
        var channel, position := physical.value, transmitted - start;
        var answer := answers[next];
        assert answers[next..][0] == answer && answers[next..][1..] == answers[next + 1..];
        next := next + 1;
        var accepted, failing := WriteOnce(channel, |payload| - position, answer);
        sent := sent + payload[position..position + accepted];
        assert sent == payload[..|sent|];
        if transmitted >= end {
          return |payload|, None, sent;
        }
        if failing || accepted == 0 {
          if !answer.recoverable {
            var reason := if failing then PhysicalFailure else NoProgress;
            return WrittenForRange(start, end, transmitted), Some(reason), sent;
          }
          MarkUnavailable(channel);
        }
      }
    }

    // -------------------------------------------------------------------
    // Losing and replacing the physical stream
    // -------------------------------------------------------------------

    method MarkUnavailable(failed: ChannelId)
      requires Valid()
      modifies this`physical, this`finTransmitted
      ensures Valid() && View() == StreamRegions.MarkUnavailable(old(View()), failed)
    {
      if closed || physical != Some(failed) {
        return;
      }
      physical := None;
      if localFin {
        finTransmitted := false;
      }
    }

    /** The first half of `DetachPhysical`; `awaited` says whether it must wait for a write in flight. */
    method Detach() returns (awaited: bool, error: Option<StreamError>)
      requires Valid()
      modifies this`physical
      ensures Valid() && View() == StreamRegions.Detach(old(View()))
      ensures error == if closed then Some(Closed) else None
      ensures awaited == (!closed && attemptEnd != 0)
    {
      if closed {
        return false, Some(Closed);
      }
      awaited := attemptEnd != 0;
      physical := None;
      error := None;
    }

    /**
     `Replace` while nothing else touches the stream: admission, the implied
     acknowledgement, the replay loop, the half-close and the publication.
     On success the candidate carries exactly the unacknowledged journal.
     */
    method Replace(next: ChannelId, peerOffset: nat, receiveStart: nat, answers: seq<Answer>, finFails: bool)
      returns (error: Option<StreamError>, replayed: seq<byte>)
      requires Valid()
      requires closed == journal.closed
      modifies this, journal, journal.buffer
      ensures Valid()
      ensures error.None? ==>
                var e := old(View());
                var retained := e.journal.Ack(peerOffset);
                && ReplaceError(e, peerOffset, receiveStart).None?
                && e.journal.OffsetError(peerOffset).None?
                && replayed == retained.retained
                && View() == StreamRegions.Publish(e.(journal := retained), next, retained.end, e.localFin,
                                                   receiveStart)
                && transmitted == journal.end && discard == receiveOffset - receiveStart
      ensures error.Some? ==>
                var e := old(View());
                && (View() == e || View() == e.(journal := e.journal.Ack(peerOffset)))
                && replayed <= e.journal.Ack(peerOffset).retained
                && (ReplaceError(e, peerOffset, receiveStart).Some? ==>
                      error == ReplaceError(e, peerOffset, receiveStart) && View() == e)
    {
      replayed := [];
      if closed {
        return Some(Closed), [];
      }
      if physical != None || receiveStart > receiveOffset || peerOffset > transmitted {
        return Some(State), [];
      }
      var failure := AckJournal(peerOffset, false);
      if failure.Some? {
        return Some(State), [];
      }
      var ok;
      replayed, ok := ReplayJournalFrom(peerOffset, answers);
      if !ok {
        return Some(State), replayed;
      }
      if localFin && finFails {
        return Some(State), replayed;
      }
      physical := Some(next);
      transmitted := journal.end;
      finTransmitted := localFin;
      discard := receiveOffset - receiveStart;
      error := None;
    }

    /** The replay, through a copy buffer of its own. */
    method ReplayJournalFrom(offset: nat, answers: seq<Answer>) returns (replayed: seq<byte>, ok: bool)
      requires Valid() && journal.View().OffsetError(offset).None?
      requires journal.base == offset
      ensures Valid() && View() == old(View())
      ensures replayed <= journal.View().retained
      ensures ok ==> replayed == journal.View().retained
    {
      var buffer := new byte[ReplayBuffer(journal.size)](_ => 0);
      replayed, ok := ReplayThrough(buffer, answers);
    }

    /** The replay loop: chunk by chunk through the copy buffer, each chunk written out in full. */
    method ReplayThrough(buffer: array<byte>, answers: seq<Answer>) returns (replayed: seq<byte>, ok: bool)
      requires Valid() && !journal.closed && buffer != journal.buffer && 1 <= buffer.Length
      modifies buffer
      ensures replayed <= old(journal.View()).retained
      ensures ok ==> replayed == old(journal.View()).retained
    {
      ghost var j := journal.View();
      var at, used := journal.base, 0;
      replayed := [];
      while at < journal.end
        invariant journal.base <= at <= journal.end && 0 <= used <= |answers|
        invariant ReplayedTo(j, replayed, at)
        decreases journal.end - at
      {
        var bytes, left, taken := ReplayOneChunk(at, buffer, answers[used..]);
        used := |answers| - left;
        ReplayedMore(j, replayed, at, bytes, buffer.Length);
        replayed, at := replayed + bytes, at + |bytes|;
        if !taken {
          ReplayedFront(j, replayed, at);
          return replayed, false;
        }
      }
      ReplayedFront(j, replayed, at);
      ok := true;
    }

    method ReplayOneChunk(at: nat, buffer: array<byte>, answers: seq<Answer>)
      returns (bytes: seq<byte>, left: nat, taken: bool)
      requires Valid() && journal.View().OffsetError(at).None? && at < journal.end
      requires buffer != journal.buffer && 1 <= buffer.Length
      modifies buffer
      ensures left <= |answers|
      ensures bytes <= journal.View().Slice(at, buffer.Length)
      ensures taken ==> bytes == journal.View().Slice(at, buffer.Length) && 0 < |bytes|
    {
      ghost var j := journal.View();
      var n, following, failure := journal.Replay(at, buffer);
      var payload := buffer[..n];
      assert payload == j.Slice(at, buffer.Length);
      var accepted;
      accepted, left, taken := WriteAll(payload, answers);
      bytes := payload[..accepted];
    }

    // -------------------------------------------------------------------
    // Read
    // -------------------------------------------------------------------

    /**
     What `Read` does with `n` bytes a physical read put into `destination`:
     the discarded front is shifted out and the rest moves to the front.
     */
    method ReadInto(channel: ChannelId, destination: array<byte>, n: nat)
      returns (kept: nat, notify: bool, error: Option<StreamError>)
      requires Valid() && n <= destination.Length
      requires destination != journal.buffer
      modifies this`discard, this`receiveOffset, this`lastNotified, destination
      ensures Valid()
      ensures var r := ReadChunk(old(View()), channel, n);
              && View() == r.endpoint && error == r.error && kept == r.kept && notify == r.notify
              && (error.None? ==>
                    r.dropped + kept == n && destination[..kept] == old(destination[r.dropped..n]))
    {
      if closed {
        return 0, false, Some(Closed);
      }
      if physical != Some(channel) {
        return 0, false, Some(State);
      }
      kept := n;
      if discard != 0 {
        var dropped := Min(n, discard);
        discard := discard - dropped;
        kept := n - dropped;
        ShiftFront(destination, dropped, n);
      }
      if kept > MAX_SEQUENCE - receiveOffset {
        return 0, false, Some(State);
      }
      receiveOffset := receiveOffset + kept;
      notify := ackEvery != 0 && receiveOffset - lastNotified >= ackEvery;
      if notify {
        lastNotified := receiveOffset;
      }
      error := None;
    }

    // -------------------------------------------------------------------
    // Half-close and close
    // -------------------------------------------------------------------

    method StartCloseWrite() returns (settled: bool, error: Option<StreamError>)
      requires Valid()
      modifies this`localFin
      ensures Valid() && View() == StreamRegions.StartCloseWrite(old(View()))
      ensures error == if closed then Some(Closed) else None
      ensures settled == (!closed && FinSettled(old(View())))
    {
      if closed {
        return false, Some(Closed);
      }
      settled := localFin && finTransmitted;
      localFin := true;
      error := None;
    }

    method FinishFin(channel: ChannelId)
      requires Valid()
      modifies this`finTransmitted
      ensures Valid() && View() == FinSent(old(View()), channel)
    {
      if physical == Some(channel) {
        finTransmitted := true;
      }
    }

    method Close()
      requires Valid() && closed == journal.closed
      modifies this`closed, this`physical, journal, journal.buffer
      ensures Valid() && View() == StreamRegions.Close(old(View()))
    {
      if closed {
        return;
      }
      closed := true;
      physical := None;
      journal.Close();
    }
  }

  /** `copy(a[:n-by], a[by:n])`. */
  method ShiftFront(a: array<byte>, shift: nat, n: nat)
    requires shift <= n <= a.Length
    modifies a
    ensures a[..n - shift] == old(a[shift..n])
  {
    forall i | 0 <= i < n - shift {
      a[i] := a[i + shift];
    }
  }

  /** `writeAll`: writes until the payload is taken, a write fails, or a write makes no progress. */
  method WriteAll(payload: seq<byte>, answers: seq<Answer>) returns (accepted: nat, left: nat, ok: bool)
    ensures accepted == Taken(|payload|, answers) && left <= |answers|
    ensures ok == TakesAll(|payload|, answers) && (ok ==> accepted == |payload|)
  {
    accepted := 0;
    var next := 0;
    while accepted < |payload|
      invariant accepted <= |payload| && next <= |answers|
      invariant Taken(|payload|, answers) == accepted + Taken(|payload| - accepted, answers[next..])
      invariant TakesAll(|payload|, answers) == TakesAll(|payload| - accepted, answers[next..])
      decreases |answers| - next
    {
      ghost var rest := answers[next..];
      if next == |answers| {
        return accepted, 0, false;
      }
      var answer := answers[next];
      next := next + 1;
      assert rest[0] == answer && rest[1..] == answers[next..];
      if answer.count < 0 || answer.count > |payload| - accepted {
        return accepted, |answers| - next, false;
      }
      accepted := accepted + answer.count;
      if answer.failed || answer.count == 0 {
        return accepted, |answers| - next, false;
      }
    }
    return accepted, |answers| - next, true;
  }
}
