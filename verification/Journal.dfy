/**
 The bounded replay journal of one direction of a logical flow: a circular
 buffer addressed by cumulative stream offsets.

 `JournalView` is the specification, a bounded byte sequence with a moving
 base.  `Journal` is the circular buffer; each method is proved to act on its
 view exactly as the specification does, through every wrap-around.
 */
module ReplayJournal {
  import opened Common

  const MAX_JOURNAL_CAPACITY: nat := 64 * 1024 * 1024

  datatype JournalError = ReplayConfig | ReplayBudget | ReplayOffset | ReplayClosed | ReplayOverflow

  /** `retained` are the bytes at offsets `base .. end`; everything below `base` is retired. */
  datatype JournalView = JournalView(base: nat, end: nat, retained: seq<byte>, capacity: nat, closed: bool) {

    ghost predicate Valid() {
      && (closed ==> retained == [] && capacity == 0)
      && (!closed ==> end == base + |retained| && |retained| <= capacity && 0 < capacity)
      && base <= end <= MAX_SEQUENCE
    }

    function AppendError(payload: seq<byte>): (e: Option<JournalError>) {
      if closed then Some(ReplayClosed)
      else if |payload| > capacity - |retained| then Some(ReplayBudget)
      else if |payload| > MAX_SEQUENCE - end then Some(ReplayOverflow)
      else None
    }

    /** The journal with `payload` accepted; a refused payload changes nothing. */
    function Append(payload: seq<byte>): (j: JournalView) {
      if AppendError(payload).Some? then this
      else this.(retained := retained + payload, end := end + |payload|)
    }

    function OffsetError(offset: nat): (e: Option<JournalError>) {
      if closed then Some(ReplayClosed)
      else if offset < base || offset > end then Some(ReplayOffset)
      else None
    }

    /** Cumulative acknowledgement: every byte below `offset` is dropped. */
    function Ack(offset: nat): (j: JournalView)
      requires Valid()
    {
      if OffsetError(offset).Some? then this
      else this.(retained := retained[offset - base..], base := offset)
    }

    /** At most `limit` retained bytes starting at `offset`. */
    function Slice(offset: nat, limit: nat): (bytes: seq<byte>)
      requires Valid()
      requires OffsetError(offset).None?
    {
      retained[offset - base..offset - base + Min(limit, end - offset)]
    }

    function Close(): (j: JournalView) {
      if closed then this else this.(retained := [], capacity := 0, closed := true)
    }
  }

  // ---------------------------------------------------------------------
  // Ring arithmetic
  // ---------------------------------------------------------------------

  /** The cell holding ring position `i`: `(head + i) % n`. */
  function Cell(head: nat, i: nat, n: nat): (cell: nat)
    requires head < n && i <= n
    ensures cell < n
  {
    if head + i < n then head + i else head + i - n
  }

  /** The ring position of a cell: `Cell` inverted. */
  function Position(cell: nat, head: nat, n: nat): (i: nat)
    requires head < n && cell < n
    ensures i < n && Cell(head, i, n) == cell
  {
    if cell >= head then cell - head else cell + n - head
  }

  lemma ModIsCell(head: nat, i: nat, n: nat)
    requires head < n && i <= n
    ensures (head + i) % n == Cell(head, i, n)
  {
    if head + i >= n {
      assert head + i == n * 1 + (head + i - n);
    }
  }

  method RingIndex(head: nat, i: nat, n: nat) returns (cell: nat)
    requires head < n && i <= n
    ensures cell == Cell(head, i, n)
  {
    ModIsCell(head, i, n);
    cell := (head + i) % n;
  }

  /** The logical contents of a ring: `size` cells starting at `head`. */
  function RingContents(cells: seq<byte>, head: nat, size: nat): (bytes: seq<byte>)
    requires head < |cells| && size <= |cells|
  {
    seq(size, i requires 0 <= i < size => cells[Cell(head, i, |cells|)])
  }

  /** Every cell outside the retained window is zero. */
  ghost predicate RingScrubbed(cells: seq<byte>, head: nat, size: nat)
    requires head < |cells| && size <= |cells|
  {
    forall cell :: 0 <= cell < |cells| && Position(cell, head, |cells|) >= size ==> cells[cell] == 0
  }

  /** `after` is `before` with `payload` written behind the retained window. */
  ghost predicate WrittenBehind(before: seq<byte>, after: seq<byte>, head: nat, size: nat, payload: seq<byte>)
    requires head < |before| && size + |payload| <= |before|
  {
    && |after| == |before|
    && forall cell :: 0 <= cell < |before| ==>
         var i := Position(cell, head, |before|);
         after[cell] == if size <= i < size + |payload| then payload[i - size] else before[cell]
  }

  lemma AppendedRing(before: seq<byte>, after: seq<byte>, head: nat, size: nat, payload: seq<byte>)
    requires head < |before| && size + |payload| <= |before|
    requires WrittenBehind(before, after, head, size, payload)
    ensures RingContents(after, head, size + |payload|) == RingContents(before, head, size) + payload
    ensures RingScrubbed(before, head, size) ==> RingScrubbed(after, head, size + |payload|)
  {
    var grown := RingContents(after, head, size + |payload|);
    var expected := RingContents(before, head, size) + payload;
    forall i | 0 <= i < size + |payload|
      ensures grown[i] == expected[i]
    {
      assert Position(Cell(head, i, |before|), head, |before|) == i;
    }
  }

  /** `after` is `before` with the first `retire` ring cells zeroed. */
  ghost predicate ZeroedFront(before: seq<byte>, after: seq<byte>, head: nat, retire: nat)
    requires head < |before|
  {
    && |after| == |before|
    && forall cell :: 0 <= cell < |before| ==>
         after[cell] == if Position(cell, head, |before|) < retire then 0 else before[cell]
  }

  lemma RetiredRing(before: seq<byte>, after: seq<byte>, head: nat, size: nat, retire: nat)
    requires head < |before| && retire <= size <= |before|
    requires ZeroedFront(before, after, head, retire)
    ensures RingContents(after, Cell(head, retire, |before|), size - retire)
         == RingContents(before, head, size)[retire..]
    ensures RingScrubbed(before, head, size) ==>
              RingScrubbed(after, Cell(head, retire, |before|), size - retire)
  {
    var n := |before|;
    var next := Cell(head, retire, n);
    var left := RingContents(after, next, size - retire);
    var expected := RingContents(before, head, size)[retire..];
    forall i | 0 <= i < size - retire
      ensures left[i] == expected[i]
    {
      assert Cell(next, i, n) == Cell(head, retire + i, n);
      assert Position(Cell(head, retire + i, n), head, n) == retire + i;
    }
    if RingScrubbed(before, head, size) {
      forall cell | 0 <= cell < n && Position(cell, next, n) >= size - retire
        ensures after[cell] == 0
      {
        assert Position(cell, head, n) < retire || Position(cell, head, n) >= size;
      }
    }
  }

  /** A run of ring cells is a slice of the contents. */
  lemma ReplayedRing(cells: seq<byte>, head: nat, size: nat, from: nat, length: nat)
    requires head < |cells| && size <= |cells| && from + length <= size
    ensures RingContents(cells, head, size)[from..from + length]
         == RingContents(cells, Cell(head, from, |cells|), length)
  {
    var run := RingContents(cells, Cell(head, from, |cells|), length);
    forall i | 0 <= i < length
      ensures run[i] == RingContents(cells, head, size)[from + i]
    {
      assert Cell(Cell(head, from, |cells|), i, |cells|) == Cell(head, from + i, |cells|);
    }
  }

  // ---------------------------------------------------------------------
  // The circular buffer
  // ---------------------------------------------------------------------

  class Journal {
    var buffer: array<byte>
    var head: nat
    var size: nat
    var base: nat
    var end: nat
    var closed: bool

    ghost predicate Valid()
      reads this, buffer
    {
      && base <= end <= MAX_SEQUENCE
      && (closed ==> buffer.Length == 0 && size == 0)
      && (!closed ==>
            && head < buffer.Length
            && size <= buffer.Length
            && end == base + size
            && RingScrubbed(buffer[..], head, size))
    }

    ghost function View(): (v: JournalView)
      reads this, buffer
      requires Valid()
      ensures v.Valid()
    {
      JournalView(base, end,
                  if closed then [] else RingContents(buffer[..], head, size),
                  buffer.Length, closed)
    }

    constructor (capacity: nat)
      requires 0 < capacity <= MAX_JOURNAL_CAPACITY
      ensures Valid() && fresh(buffer)
      ensures View() == JournalView(0, 0, [], capacity, false)
    {
      buffer := new byte[capacity](_ => 0);
      head, size, base, end, closed := 0, 0, 0, 0, false;
    }

    method Append(payload: seq<byte>) returns (start: nat, following: nat, error: Option<JournalError>)
      requires Valid()
      modifies this, buffer
      ensures Valid() && buffer == old(buffer)
      ensures error == old(View()).AppendError(payload)
      ensures View() == old(View()).Append(payload)
      ensures error.None? ==> start == old(end) && following == start + |payload| == end
    {
      if closed {
        return 0, 0, Some(ReplayClosed);
      }
      if |payload| > buffer.Length - size {
        return 0, 0, Some(ReplayBudget);
      }
      if |payload| > MAX_SEQUENCE - end {
        return 0, 0, Some(ReplayOverflow);
      }
      start := end;
      if |payload| == 0 {
        assert View().retained == old(View()).retained + payload;
        return start, start, None;
      }
      CopyIn(payload);
      size := size + |payload|;
      end := end + |payload|;
      return start, end, None;
    }

    /** Writes `payload` behind the retained window, in two runs when it wraps. */
    method CopyIn(payload: seq<byte>)
      requires Valid() && !closed
      requires size + |payload| <= buffer.Length
      modifies buffer
      ensures RingContents(buffer[..], head, size + |payload|) == old(RingContents(buffer[..], head, size)) + payload
      ensures RingScrubbed(buffer[..], head, size + |payload|)
    {
      ghost var was := buffer[..];
      var tail := RingIndex(head, size, buffer.Length);
      var first := Min(|payload|, buffer.Length - tail);
      forall i | 0 <= i < first {
        buffer[tail + i] := payload[i];
      }
      forall i | 0 <= i < |payload| - first {
        buffer[i] := payload[first + i];
      }
      AppendedRing(was, buffer[..], head, size, payload);
    }

    method Ack(offset: nat) returns (error: Option<JournalError>)
      requires Valid()
      modifies this, buffer
      ensures Valid() && buffer == old(buffer)
      ensures error == old(View()).OffsetError(offset)
      ensures View() == old(View()).Ack(offset)
    {
      if closed {
        return Some(ReplayClosed);
      }
      if offset < base || offset > end {
        return Some(ReplayOffset);
      }
      var retire := offset - base;
      if retire == 0 {
        assert View().retained == old(View()).retained[0..];
        return None;
      }
      ghost var was := buffer[..];
      Clear(head, retire);
      RetiredRing(was, buffer[..], head, size, retire);
      head := RingIndex(head, retire, buffer.Length);
      size := size - retire;
      base := offset;
      if size == 0 {
        head := 0;
      }
      error := None;
    }

    /** `clearLocked`: zeroes `length` ring cells from `start`. */
    method Clear(start: nat, length: nat)
      requires start < buffer.Length && length <= buffer.Length
      modifies buffer
      ensures forall cell :: 0 <= cell < buffer.Length ==>
                buffer[cell] == if Position(cell, start, buffer.Length) < length then 0 else old(buffer[cell])
    {
      var first := Min(length, buffer.Length - start);
      forall i | start <= i < start + first {
        buffer[i] := 0;
      }
      forall i | 0 <= i < length - first {
        buffer[i] := 0;
      }
    }

    /** Copies a run of the retained window, in two runs when it wraps. */
    method CopyOut(from: nat, length: nat, destination: array<byte>)
      requires Valid() && !closed
      requires from + length <= size && length <= destination.Length
      requires destination != buffer
      modifies destination
      ensures destination[..length] == RingContents(buffer[..], head, size)[from..from + length]
      ensures forall i :: length <= i < destination.Length ==> destination[i] == old(destination[i])
    {
      ReplayedRing(buffer[..], head, size, from, length);
      var start := RingIndex(head, from, buffer.Length);
      var first := Min(length, buffer.Length - start);
      forall i | 0 <= i < first {
        destination[i] := buffer[start + i];
      }
      forall i | first <= i < length {
        destination[i] := buffer[i - first];
      }
      assert destination[..length] == RingContents(buffer[..], start, length);
    }

    method Replay(offset: nat, destination: array<byte>)
      returns (n: nat, following: nat, error: Option<JournalError>)
      requires Valid()
      requires destination != buffer
      modifies destination
      ensures Valid() && View() == old(View())
      ensures error == View().OffsetError(offset)
      ensures error.None? ==>
                && n <= destination.Length
                && destination[..n] == View().Slice(offset, destination.Length)
                && following == offset + n
      ensures forall i :: 0 <= i < destination.Length && (error.Some? || n <= i) ==>
                destination[i] == old(destination[i])
    {
      if closed {
        return 0, 0, Some(ReplayClosed);
      }
      if offset < base || offset > end {
        return 0, 0, Some(ReplayOffset);
      }
      var available := end - offset;
      var length := Min(destination.Length, available);
      if length == 0 {
        return 0, offset, None;
      }
      CopyOut(offset - base, length, destination);
      return length, offset + length, None;
    }

    /** Scrubs and releases the buffer; the offsets stay readable. */
    method Close()
      requires Valid()
      modifies this, buffer
      ensures Valid()
      ensures View() == old(View()).Close()
      ensures forall i :: 0 <= i < old(buffer).Length ==> old(buffer)[i] == 0
      ensures fresh(buffer) || buffer == old(buffer)
    {
      if closed {
        return;
      }
      forall i | 0 <= i < buffer.Length {
        buffer[i] := 0;
      }
      buffer := new byte[0];
      head, size, closed := 0, 0, true;
    }
  }

  method NewJournal(capacity: int) returns (journal: Journal?, error: Option<JournalError>)
    ensures error.None? <==> 0 < capacity <= MAX_JOURNAL_CAPACITY
    ensures error.None? ==>
              && journal != null && fresh(journal) && fresh(journal.buffer) && journal.Valid()
              && journal.View() == JournalView(0, 0, [], capacity, false)
    ensures error.Some? ==> journal == null && error == Some(ReplayConfig)
  {
    if capacity <= 0 || capacity > MAX_JOURNAL_CAPACITY {
      return null, Some(ReplayConfig);
    }
    journal := new Journal(capacity);
    error := None;
  }

  // ---------------------------------------------------------------------
  // Properties of the specification
  // ---------------------------------------------------------------------

  /** An operation on a journal. */
  datatype JournalOp = OpAppend(payload: seq<byte>) | OpAck(offset: nat) | OpClose

  function Apply(j: JournalView, op: JournalOp): (r: JournalView)
    requires j.Valid()
    ensures r.Valid()
  {
    match op
    case OpAppend(payload) => j.Append(payload)
    case OpAck(offset) => j.Ack(offset)
    case OpClose => j.Close()
  }

  function ApplyAll(j: JournalView, ops: seq<JournalOp>): (r: JournalView)
    requires j.Valid()
    ensures r.Valid()
    decreases |ops|
  {
    if ops == [] then j else ApplyAll(Apply(j, ops[0]), ops[1..])
  }

  /** What one operation adds to the accepted bytes. */
  function Gained(j: JournalView, op: JournalOp): (bytes: seq<byte>)
    requires j.Valid()
  {
    if op.OpAppend? && j.AppendError(op.payload).None? then op.payload else []
  }

  /** The bytes a run of operations makes the journal accept, in order. */
  function Accepted(j: JournalView, ops: seq<JournalOp>): (bytes: seq<byte>)
    requires j.Valid()
    decreases |ops|
  {
    if ops == [] then [] else Gained(j, ops[0]) + Accepted(Apply(j, ops[0]), ops[1..])
  }

  /** `after` retains exactly the bytes of `before + gained` at or above its base. */
  ghost predicate RetainsSuffix(before: JournalView, gained: seq<byte>, after: JournalView) {
    && after.end == before.end + |gained|
    && before.base <= after.base
    && (!after.closed ==>
          && !before.closed
          && after.base - before.base <= |before.retained| + |gained|
          && after.retained == (before.retained + gained)[after.base - before.base..])
  }

  lemma RetainsSuffixTrans(a: JournalView, x: seq<byte>, b: JournalView, y: seq<byte>, c: JournalView)
    requires RetainsSuffix(a, x, b) && RetainsSuffix(b, y, c)
    ensures RetainsSuffix(a, x + y, c)
  {
    if !c.closed {
      var dropped := b.base - a.base;
      assert (a.retained + x)[dropped..] + y == (a.retained + (x + y))[dropped..];
    }
  }

  /**
   Over any sequence of operations the end offset counts the accepted bytes,
   the base never regresses, and an open journal retains exactly the accepted
   bytes at or above its base.
   */
  lemma {:induction false} RetainsAcceptedSuffix(j: JournalView, ops: seq<JournalOp>)
    requires j.Valid()
    ensures RetainsSuffix(j, Accepted(j, ops), ApplyAll(j, ops))
    decreases |ops|
  {
    if ops == [] {
      assert (j.retained + [])[0..] == j.retained;
    } else {
      var k := Apply(j, ops[0]);
      assert RetainsSuffix(j, Gained(j, ops[0]), k);
      RetainsAcceptedSuffix(k, ops[1..]);
      RetainsSuffixTrans(j, Gained(j, ops[0]), k, Accepted(k, ops[1..]), ApplyAll(j, ops));
    }
  }
}
