/**
 The Mosaic traffic classifier: counts cells in half-second windows and switches
 the cover profile when two windows agree, or at once for a stream.

 Times are nanoseconds since the zero instant, which is also the value of an
 unset time; durations saturate at 64 bits and products wrap at 64 bits.
 */
module MosaicClassifier {
  import opened Common
  import opened Arithmetic
  import opened CoverProfiles

  const OBSERVATION_WINDOW: int := 500 * MILLISECOND
  const IDLE_RESET: int := 3 * SECOND
  const SMALL_CELL: nat := 1200
  const STREAM_RATE: nat := 1024 * 1024
  const STREAM_BURST: nat := 256 * 1024
  const REALTIME_MAX_RATE: nat := 512 * 1024
  const REALTIME_MIN_CELLS: nat := 10
  const REALTIME_SMALL_PERCENT: nat := 80
  const CONFIRM_WINDOWS: nat := 2
  const MAX_OBSERVED_BYTES: nat := 0x4000_0000
  const MAX_OBSERVED_CELLS: nat := 0x10_0000
  const MAX_DURATION: int := 0x7FFF_FFFF_FFFF_FFFF
  const MIN_DURATION: int := -0x8000_0000_0000_0000
  const WORD: nat := 0x1_0000_0000_0000_0000

  datatype TrafficClass = UnknownClass | WebClass | RealtimeClass | StreamClass

  datatype Mosaic = Mosaic(
    class': TrafficClass,
    windowStart: int,
    lastObservation: int,
    windowBytes: nat,
    windowCells: nat,
    smallCells: nat,
    candidate: TrafficClass,
    candidateWindows: nat,
    transitions: nat)

  /** `a.Sub(b)`: the difference of two times, saturating. */
  function Sub(a: int, b: int): (d: int) {
    Min(MAX_DURATION, Max(MIN_DURATION, a - b))
  }

  function BoundedAdd(value: nat, increment: nat, maximum: nat): (r: nat) {
    if value >= maximum || increment >= maximum - value then maximum else value + increment
  }

  /** The rate test as 64-bit words compute it. */
  predicate RateAtLeast(bytes: nat, elapsed: int, threshold: nat) {
    elapsed > 0 && (bytes * SECOND) % WORD >= (threshold * elapsed) % WORD
  }

  predicate RateAtMost(bytes: nat, elapsed: int, threshold: nat) {
    elapsed > 0 && (bytes * SECOND) % WORD <= (threshold * elapsed) % WORD
  }

  function Classify(m: Mosaic, elapsed: int): (c: TrafficClass) {
    if elapsed <= 0 then WebClass
    else if RateAtLeast(m.windowBytes, elapsed, STREAM_RATE) then StreamClass
    else if m.windowCells >= REALTIME_MIN_CELLS
            && (m.smallCells * 100) % WORD >= (m.windowCells * REALTIME_SMALL_PERCENT) % WORD
            && RateAtMost(m.windowBytes, elapsed, REALTIME_MAX_RATE) then RealtimeClass
    else WebClass
  }

  function ResetWindow(m: Mosaic, now: int): (r: Mosaic) {
    m.(windowStart := now, windowBytes := 0, windowCells := 0, smallCells := 0)
  }

  function Transition(m: Mosaic, c: TrafficClass): (r: Mosaic) {
    if c.UnknownClass? || m.class' == c then m
    else m.(class' := c, candidate := UnknownClass, candidateWindows := 0,
            transitions := BoundedAdd(m.transitions, 1, MAX_UINT64))
  }

  function Propose(m: Mosaic, c: TrafficClass): (r: Mosaic) {
    if c == m.class' then m.(candidate := UnknownClass, candidateWindows := 0)
    else if c.StreamClass? then Transition(m, c)
    else if m.candidate != c then m.(candidate := c, candidateWindows := 1)
    else
      var counted := if m.candidateWindows < CONFIRM_WINDOWS then m.(candidateWindows := m.candidateWindows + 1) else m;
      if counted.candidateWindows >= CONFIRM_WINDOWS then Transition(counted, c) else counted
  }

  /** The clock went backwards, or no window is open: a window starts here. */
  function Reopened(m: Mosaic, now: int): (r: Mosaic) {
    var rewound := if m.lastObservation != 0 && now < m.lastObservation
                   then ResetWindow(m, now).(candidate := UnknownClass, candidateWindows := 0) else m;
    if rewound.windowStart == 0 then ResetWindow(rewound, now) else rewound
  }

  function Idled(m: Mosaic, now: int): (r: Mosaic) {
    if m.lastObservation != 0 && Sub(now, m.lastObservation) > IDLE_RESET
    then ResetWindow(Propose(m, WebClass), now) else m
  }

  function Windowed(m: Mosaic, now: int): (r: Mosaic) {
    var elapsed := Sub(now, m.windowStart);
    if elapsed >= OBSERVATION_WINDOW then ResetWindow(Propose(m, Classify(m, elapsed)), now) else m
  }

  function Counted(m: Mosaic, now: int, wireBytes: nat): (r: Mosaic) {
    m.(windowBytes := BoundedAdd(m.windowBytes, wireBytes, MAX_OBSERVED_BYTES),
       windowCells := BoundedAdd(m.windowCells, 1, MAX_OBSERVED_CELLS),
       smallCells := if wireBytes <= SMALL_CELL then BoundedAdd(m.smallCells, 1, MAX_OBSERVED_CELLS) else m.smallCells,
       lastObservation := now)
  }

  function Burst(m: Mosaic, now: int): (r: Mosaic) {
    var elapsed := Sub(now, m.windowStart);
    if 0 <= elapsed <= SECOND && m.windowBytes >= STREAM_BURST then Transition(m, StreamClass) else m
  }

  /** `observeMosaic`. */
  function Observe(m: Mosaic, now: int, wireBytes: nat): (r: Mosaic) {
    Burst(Counted(Windowed(Idled(Reopened(m, now), now), now), now, wireBytes), now)
  }

  /** The duration an observation at `now` classifies, if it closes a window. */
  function ClassifiedElapsed(m: Mosaic, now: int): (elapsed: Option<int>) {
    var before := Idled(Reopened(m, now), now);
    var elapsed := Sub(now, before.windowStart);
    if elapsed >= OBSERVATION_WINDOW then Some(elapsed) else None
  }

  // ---------------------------------------------------------------------
  // The arithmetic is exact
  // ---------------------------------------------------------------------

  ghost predicate CountersOk(m: Mosaic) {
    && m.windowBytes <= MAX_OBSERVED_BYTES
    && m.smallCells <= m.windowCells <= MAX_OBSERVED_CELLS
    && m.candidateWindows <= CONFIRM_WINDOWS
    && m.transitions <= MAX_UINT64
  }

  /** The last observation lies less than a window after the window's start; unset together. */
  ghost predicate WindowOk(m: Mosaic) {
    && 0 <= m.lastObservation - m.windowStart < OBSERVATION_WINDOW
    && (m.lastObservation == 0 ==> m.windowStart == 0)
  }

  lemma CountersStayOk(m: Mosaic, now: int, wireBytes: nat)
    requires CountersOk(m)
    ensures CountersOk(Observe(m, now, wireBytes))
  {
  }

  /** A closed window is at most three and a half seconds long. */
  lemma ClassifiedIsShort(m: Mosaic, now: int)
    requires WindowOk(m)
    ensures ClassifiedElapsed(m, now).Some? ==>
              OBSERVATION_WINDOW <= ClassifiedElapsed(m, now).value < IDLE_RESET + OBSERVATION_WINDOW
  {
  }

  /** An observation at the zero instant itself that continues a window opened before it. */
  predicate CrossesZero(m: Mosaic, now: int) {
    && now == 0 && m.windowStart < 0 && m.lastObservation < 0
    && now - m.lastObservation <= IDLE_RESET && now - m.windowStart < OBSERVATION_WINDOW
  }

  /**
   After every observation, whatever the clock did, the window is again
   shorter than half a second; only a window continued over the very instant
   that stands for an unset time is lost track of.
   */
  lemma WindowStaysOk(m: Mosaic, now: int, wireBytes: nat)
    requires WindowOk(m)
    ensures WindowOk(Observe(m, now, wireBytes)) <==> !CrossesZero(m, now)
  {
    var a := Reopened(m, now);
    var b := Idled(a, now);
    var c := Windowed(b, now);
    assert Observe(m, now, wireBytes).windowStart == c.windowStart;
    assert Observe(m, now, wireBytes).lastObservation == now;
  }

  /** Within that bound no product wraps, and the word comparison is the true comparison of rates. */
  lemma RatesAreExact(bytes: nat, elapsed: int, threshold: nat)
    requires bytes <= MAX_OBSERVED_BYTES && 0 < elapsed < IDLE_RESET + OBSERVATION_WINDOW
    requires threshold <= STREAM_RATE
    ensures RateAtLeast(bytes, elapsed, threshold) <==> bytes * SECOND >= threshold * elapsed
    ensures RateAtMost(bytes, elapsed, threshold) <==> bytes * SECOND <= threshold * elapsed
  {
    assert bytes * SECOND <= MAX_OBSERVED_BYTES * SECOND < WORD;
    ProductBound(threshold, elapsed, STREAM_RATE, IDLE_RESET + OBSERVATION_WINDOW);
  }

  /** The class a window deserves, in exact arithmetic. */
  function TrueClass(m: Mosaic, elapsed: int): (c: TrafficClass) {
    if m.windowBytes * SECOND >= STREAM_RATE * elapsed then StreamClass
    else if m.windowCells >= REALTIME_MIN_CELLS && m.smallCells * 100 >= m.windowCells * REALTIME_SMALL_PERCENT
            && m.windowBytes * SECOND <= REALTIME_MAX_RATE * elapsed then RealtimeClass
    else WebClass
  }

  lemma ClassifyIsExact(m: Mosaic, elapsed: int)
    requires CountersOk(m) && 0 < elapsed < IDLE_RESET + OBSERVATION_WINDOW
    ensures Classify(m, elapsed) == TrueClass(m, elapsed)
  {
    RatesAreExact(m.windowBytes, elapsed, STREAM_RATE);
    RatesAreExact(m.windowBytes, elapsed, REALTIME_MAX_RATE);
  }

  // ---------------------------------------------------------------------
  // Every run of the clock
  // ---------------------------------------------------------------------

  datatype Sighting = Sighting(now: int, wireBytes: nat)

  function ObserveAll(m: Mosaic, run: seq<Sighting>): (r: Mosaic)
    decreases |run|
  {
    if run == [] then m else ObserveAll(Observe(m, run[0].now, run[0].wireBytes), run[1..])
  }

  /** No observation of the run continues a window over the zero instant. */
  ghost predicate NoCrossing(m: Mosaic, run: seq<Sighting>)
    decreases |run|
  {
    run == [] || (!CrossesZero(m, run[0].now) && NoCrossing(Observe(m, run[0].now, run[0].wireBytes), run[1..]))
  }

  lemma {:induction false} WindowOkRun(m: Mosaic, run: seq<Sighting>)
    requires WindowOk(m) && CountersOk(m) && NoCrossing(m, run)
    ensures WindowOk(ObserveAll(m, run)) && CountersOk(ObserveAll(m, run))
    decreases |run|
  {
    if run != [] {
      WindowStaysOk(m, run[0].now, run[0].wireBytes);
      CountersStayOk(m, run[0].now, run[0].wireBytes);
      WindowOkRun(Observe(m, run[0].now, run[0].wireBytes), run[1..]);
    }
  }

  /**
   For every sequence of clock readings, forwards or backwards, that does not
   continue a window over the zero instant, the class given to a window is the
   one exact arithmetic gives it.
   */
  lemma ClassificationIsExact(m: Mosaic, run: seq<Sighting>, now: int)
    requires WindowOk(m) && CountersOk(m) && NoCrossing(m, run)
    ensures var s := ObserveAll(m, run);
            var before := Idled(Reopened(s, now), now);
            ClassifiedElapsed(s, now).Some? ==>
              Classify(before, ClassifiedElapsed(s, now).value) == TrueClass(before, ClassifiedElapsed(s, now).value)
  {
    WindowOkRun(m, run);
    var s := ObserveAll(m, run);
    if ClassifiedElapsed(s, now).Some? {
      ClassifiedIsShort(s, now);
      ClassifyIsExact(Idled(Reopened(s, now), now), ClassifiedElapsed(s, now).value);
    }
  }

  /** The length of an idle window at which the product of the stream rate wraps to zero. */
  const WRAPPING_ELAPSED: int := 0x1000_0000_0000

  /**
   The condition is needed: whenever a window is continued over the zero
   instant, an observation hours later classifies what is left in it as a
   stream, which it is not.
   */
  lemma CrossingMisclassifies(m: Mosaic, wireBytes: nat)
    requires WindowOk(m) && CountersOk(m) && CrossesZero(m, 0)
    ensures var s := Observe(m, 0, wireBytes);
            var now := s.windowStart + WRAPPING_ELAPSED;
            var before := Idled(Reopened(s, now), now);
            && ClassifiedElapsed(s, now) == Some(WRAPPING_ELAPSED)
            && Classify(before, WRAPPING_ELAPSED) == StreamClass
            && TrueClass(before, WRAPPING_ELAPSED) != StreamClass
  {
    CountersStayOk(m, 0, wireBytes);
    var s := Observe(m, 0, wireBytes);
    assert s.windowStart == m.windowStart && s.lastObservation == 0;
    assert (STREAM_RATE * WRAPPING_ELAPSED) % WORD == 0;
  }

  /**
   Three readings are enough: a window opened one nanosecond before the zero
   instant survives hours of idleness, its length makes the product wrap to
   zero, and two small cells are classified as a stream.
   */
  lemma ZeroInstantMisclassifies(m: Mosaic)
    requires m == Mosaic(WebClass, 0, 0, 0, 0, 0, UnknownClass, 0, 0)
    ensures var s := ObserveAll(m, [Sighting(-1, 100), Sighting(0, 100)]);
            var now := 0x1000_0000_0000 - 1;
            && ClassifiedElapsed(s, now) == Some(0x1000_0000_0000)
            && Classify(s, 0x1000_0000_0000) == StreamClass
            && TrueClass(s, 0x1000_0000_0000) == WebClass
  {
    var s1 := Observe(m, -1, 100);
    var s2 := Observe(s1, 0, 100);
    var run := [Sighting(-1, 100), Sighting(0, 100)];
    assert run[1..] == [Sighting(0, 100)];
    assert ObserveAll(s1, [Sighting(0, 100)]) == ObserveAll(s2, []);
    assert ObserveAll(m, run) == s2;
    assert s2.windowStart == -1 && s2.lastObservation == 0 && s2.windowBytes == 200;
  }

  // ---------------------------------------------------------------------
  // Hysteresis
  // ---------------------------------------------------------------------

  /** The class an observation at `now` pleads for: that of the window it closes, or web traffic after idleness. */
  function Verdict(m: Mosaic, now: int): (verdict: Option<TrafficClass>) {
    var ready := Reopened(m, now);
    var elapsed := Sub(now, ready.windowStart);
    if ready.lastObservation != 0 && Sub(now, ready.lastObservation) > IDLE_RESET then Some(WebClass)
    else if elapsed >= OBSERVATION_WINDOW then Some(Classify(ready, elapsed))
    else None
  }

  /** The verdicts of a run of observations, in order. */
  function Verdicts(m: Mosaic, run: seq<Sighting>): (verdicts: seq<TrafficClass>)
    decreases |run|
  {
    if run == [] then []
    else
      (match Verdict(m, run[0].now)
       case Some(c) => [c]
       case None => [])
      + Verdicts(Observe(m, run[0].now, run[0].wireBytes), run[1..])
  }

  /** A candidate class is the one the last verdict gave. */
  ghost predicate Remembers(m: Mosaic, verdicts: seq<TrafficClass>) {
    !m.candidate.UnknownClass? ==> verdicts != [] && verdicts[|verdicts| - 1] == m.candidate
  }

  /** The verdict, and nothing else but a burst, moves class and candidate. */
  lemma VerdictDecides(m: Mosaic, now: int, wireBytes: nat)
    ensures var ready, t := Reopened(m, now), Observe(m, now, wireBytes);
            var decided := match Verdict(m, now) case Some(c) => Propose(ready, c) case None => ready;
            && (t.class' == decided.class' || t.class'.StreamClass?)
            && (t.candidate == decided.candidate || t.candidate.UnknownClass?)
            && ready.class' == m.class' && (ready.candidate == m.candidate || ready.candidate.UnknownClass?)
  {
  }

  lemma RemembersStep(m: Mosaic, now: int, wireBytes: nat, verdicts: seq<TrafficClass>)
    requires Remembers(m, verdicts)
    ensures Remembers(Observe(m, now, wireBytes),
                      verdicts + match Verdict(m, now) case Some(c) => [c] case None => [])
  {
    VerdictDecides(m, now, wireBytes);
  }

  lemma {:induction false} RemembersRun(m: Mosaic, run: seq<Sighting>, verdicts: seq<TrafficClass>)
    requires Remembers(m, verdicts)
    ensures Remembers(ObserveAll(m, run), verdicts + Verdicts(m, run))
    decreases |run|
  {
    if run == [] {
      assert verdicts + [] == verdicts;
    } else {
      var first := match Verdict(m, run[0].now) case Some(c) => [c] case None => [];
      var next := Observe(m, run[0].now, run[0].wireBytes);
      RemembersStep(m, run[0].now, run[0].wireBytes, verdicts);
      RemembersRun(next, run[1..], verdicts + first);
      assert verdicts + Verdicts(m, run) == (verdicts + first) + Verdicts(next, run[1..]);
    }
  }

  /**
   Over every run of observations from a classifier without a candidate, the
   class changes to anything but a stream only when the last two verdicts both
   gave that class.
   */
  lemma ChangeNeedsAgreement(m: Mosaic, run: seq<Sighting>, now: int, wireBytes: nat)
    requires m.candidate.UnknownClass?
    ensures var s := ObserveAll(m, run);
            var c := Observe(s, now, wireBytes).class';
            var verdicts := Verdicts(m, run);
            c != s.class' && !c.StreamClass? ==>
              Verdict(s, now) == Some(c) && verdicts != [] && verdicts[|verdicts| - 1] == c
  {
    RemembersRun(m, run, []);
    assert [] + Verdicts(m, run) == Verdicts(m, run);
    VerdictDecides(ObserveAll(m, run), now, wireBytes);
  }

  // ---------------------------------------------------------------------
  // And the class does change
  // ---------------------------------------------------------------------

  /** The state right after an observation at `now` that found a quarter of a mebibyte within a second. */
  predicate Bursting(m: Mosaic, now: int) {
    0 <= now - m.windowStart <= 1_000_000_000 && m.windowBytes >= 262_144
  }

  /** No window that bursts is left in another class. */
  lemma BurstIsStream(m: Mosaic, now: int, wireBytes: nat)
    ensures Bursting(Observe(m, now, wireBytes), now) ==> Observe(m, now, wireBytes).class' == StreamClass
  {
  }

  function TotalBytes(run: seq<Sighting>): (n: nat)
    decreases |run|
  {
    if run == [] then 0 else run[0].wireBytes + TotalBytes(run[1..])
  }

  /** The run goes on in the open window: the clock does not go back, and half a second is not over. */
  ghost predicate InWindow(m: Mosaic, run: seq<Sighting>) {
    && m.windowStart != 0
    && (forall i :: 0 <= i < |run| ==> 0 <= run[i].now - m.windowStart < 500_000_000)
    && (run != [] ==> m.lastObservation <= run[0].now)
    && forall i, j :: 0 <= i < j < |run| ==> run[i].now <= run[j].now
  }

  lemma ObservedInWindow(m: Mosaic, o: Sighting)
    requires m.windowStart != 0 && CountersOk(m) && 0 <= m.lastObservation - m.windowStart < 500_000_000
    requires m.lastObservation <= o.now && 0 <= o.now - m.windowStart < 500_000_000
    ensures var r := Observe(m, o.now, o.wireBytes);
            && r.windowStart == m.windowStart && r.lastObservation == o.now
            && r.windowBytes == Min(MAX_OBSERVED_BYTES, m.windowBytes + o.wireBytes)
            && r.windowCells == Min(MAX_OBSERVED_CELLS, m.windowCells + 1)
            && r.smallCells == Min(MAX_OBSERVED_CELLS, m.smallCells + if o.wireBytes <= 1200 then 1 else 0)
  {
  }

  function SmallCount(run: seq<Sighting>): (n: nat)
    ensures n <= |run|
    decreases |run|
  {
    if run == [] then 0 else (if run[0].wireBytes <= 1200 then 1 else 0) + SmallCount(run[1..])
  }

  /** `r` is `m` with the cells of the run counted in its window, to the ceilings of the counters. */
  ghost predicate Tallied(m: Mosaic, run: seq<Sighting>, r: Mosaic) {
    && r.windowStart == m.windowStart
    && r.windowBytes == Min(MAX_OBSERVED_BYTES, m.windowBytes + TotalBytes(run))
    && r.windowCells == Min(MAX_OBSERVED_CELLS, m.windowCells + |run|)
    && r.smallCells == Min(MAX_OBSERVED_CELLS, m.smallCells + SmallCount(run))
    && r.lastObservation == if run == [] then m.lastObservation else run[|run| - 1].now
  }

  lemma TalliedMore(m: Mosaic, run: seq<Sighting>, next: Mosaic, r: Mosaic)
    requires run != [] && Tallied(next, run[1..], r) && CountersOk(m)
    requires next.windowStart == m.windowStart && next.lastObservation == run[0].now
    requires next.windowBytes == Min(MAX_OBSERVED_BYTES, m.windowBytes + run[0].wireBytes)
    requires next.windowCells == Min(MAX_OBSERVED_CELLS, m.windowCells + 1)
    requires next.smallCells == Min(MAX_OBSERVED_CELLS, m.smallCells + if run[0].wireBytes <= 1200 then 1 else 0)
    ensures Tallied(m, run, r)
  {
  }

  /** Within a window bytes, cells and small cells add up, to the ceilings of their counters. */
  lemma {:induction false} WindowAddsUp(m: Mosaic, run: seq<Sighting>)
    requires InWindow(m, run) && CountersOk(m) && 0 <= m.lastObservation - m.windowStart < 500_000_000
    ensures Tallied(m, run, ObserveAll(m, run))
    decreases |run|
  {
    if run != [] {
      var next := Observe(m, run[0].now, run[0].wireBytes);
      CountersStayOk(m, run[0].now, run[0].wireBytes);
      ObservedInWindow(m, run[0]);
      WindowAddsUp(next, run[1..]);
      TalliedMore(m, run, next, ObserveAll(next, run[1..]));
    }
  }

  lemma {:induction false} LastObservation(m: Mosaic, run: seq<Sighting>)
    requires run != []
    ensures var last := run[|run| - 1];
            ObserveAll(m, run) == Observe(ObserveAll(m, run[..|run| - 1]), last.now, last.wireBytes)
    decreases |run|
  {
    if |run| > 1 {
      LastObservation(Observe(m, run[0].now, run[0].wireBytes), run[1..]);
      assert run[1..][..|run| - 2] == run[..|run| - 1][1..];
    }
  }

  lemma LastIsStream(before: Mosaic, after: Mosaic, last: Sighting)
    requires after == Observe(before, last.now, last.wireBytes) && Bursting(after, last.now)
    ensures after.class' == StreamClass
  {
    BurstIsStream(before, last.now, last.wireBytes);
  }

  lemma TalliedBursts(m: Mosaic, run: seq<Sighting>, r: Mosaic)
    requires Tallied(m, run, r) && run != [] && InWindow(m, run)
    requires m.windowBytes + TotalBytes(run) >= 262_144
    ensures Bursting(r, run[|run| - 1].now)
  {
  }

  /** Cells that come to a quarter of a mebibyte before their window closes make the traffic a stream. */
  lemma BurstSwitches(m: Mosaic, run: seq<Sighting>)
    requires run != [] && InWindow(m, run) && CountersOk(m) && 0 <= m.lastObservation - m.windowStart < 500_000_000
    requires m.windowBytes + TotalBytes(run) >= 262_144
    ensures ObserveAll(m, run).class' == StreamClass
  {
    WindowAddsUp(m, run);
    LastObservation(m, run);
    TalliedBursts(m, run, ObserveAll(m, run));
    LastIsStream(ObserveAll(m, run[..|run| - 1]), ObserveAll(m, run), run[|run| - 1]);
  }

  lemma {:induction false} CountersOkRun(m: Mosaic, run: seq<Sighting>)
    requires CountersOk(m)
    ensures CountersOk(ObserveAll(m, run))
    decreases |run|
  {
    if run != [] {
      CountersStayOk(m, run[0].now, run[0].wireBytes);
      CountersOkRun(Observe(m, run[0].now, run[0].wireBytes), run[1..]);
    }
  }

  /** The class a window deserves by its bytes, cells and small cells and its length in nanoseconds. */
  function Deserved(bytes: nat, cells: nat, small: nat, elapsed: int): (c: TrafficClass) {
    if bytes * 1_000_000_000 >= 1_048_576 * elapsed then StreamClass
    else if cells >= 10 && small * 100 >= cells * 80 && bytes * 1_000_000_000 <= 524_288 * elapsed then RealtimeClass
    else WebClass
  }

  /**
   The verdict on a window is about what was observed in it: a mebibyte a
   second is a stream; ten cells or more of which four fifths are small, at
   half a mebibyte a second or less, are real-time traffic; the rest is web
   traffic.
   */
  lemma VerdictOnWindow(m: Mosaic, run: seq<Sighting>, now: int)
    requires InWindow(m, run) && CountersOk(m) && 0 <= m.lastObservation - m.windowStart < 500_000_000
    requires m.windowBytes + TotalBytes(run) <= MAX_OBSERVED_BYTES && m.windowCells + |run| <= MAX_OBSERVED_CELLS
    requires var last := if run == [] then m.lastObservation else run[|run| - 1].now;
             last <= now <= last + 3_000_000_000 && now - m.windowStart >= 500_000_000
    ensures Verdict(ObserveAll(m, run), now)
         == Some(Deserved(m.windowBytes + TotalBytes(run), m.windowCells + |run|, m.smallCells + SmallCount(run),
                          now - m.windowStart))
  {
    WindowAddsUp(m, run);
    CountersOkRun(m, run);
    TalliedVerdict(m, run, ObserveAll(m, run), now);
  }

  lemma TalliedVerdict(m: Mosaic, run: seq<Sighting>, r: Mosaic, now: int)
    requires Tallied(m, run, r) && CountersOk(m) && CountersOk(r) && m.windowStart != 0
    requires m.windowBytes + TotalBytes(run) <= MAX_OBSERVED_BYTES && m.windowCells + |run| <= MAX_OBSERVED_CELLS
    requires 0 <= r.lastObservation - r.windowStart < 500_000_000
    requires r.lastObservation <= now <= r.lastObservation + 3_000_000_000 && now - m.windowStart >= 500_000_000
    ensures Verdict(r, now)
         == Some(Deserved(m.windowBytes + TotalBytes(run), m.windowCells + |run|, m.smallCells + SmallCount(run),
                          now - m.windowStart))
  {
    ClassifyIsExact(r, now - r.windowStart);
  }

  /** The clock goes back at this observation. */
  predicate Rewinds(m: Mosaic, now: int) {
    m.lastObservation != 0 && now < m.lastObservation
  }

  /** An observation that gives no verdict, does not turn the clock back and finds no burst. */
  predicate Uneventful(m: Mosaic, o: Sighting) {
    Verdict(m, o.now).None? && !Rewinds(m, o.now) && !Bursting(Observe(m, o.now, o.wireBytes), o.now)
  }

  ghost predicate UneventfulRun(m: Mosaic, run: seq<Sighting>)
    decreases |run|
  {
    run == [] || (Uneventful(m, run[0]) && UneventfulRun(Observe(m, run[0].now, run[0].wireBytes), run[1..]))
  }

  /** The class is `c`, or one more verdict for it away. */
  ghost predicate Leans(m: Mosaic, c: TrafficClass) {
    m.class' == c || (m.candidate == c && m.candidateWindows + 1 >= CONFIRM_WINDOWS)
  }

  lemma VerdictLeans(m: Mosaic, now: int, wireBytes: nat, c: TrafficClass)
    requires Verdict(m, now) == Some(c) && !Bursting(Observe(m, now, wireBytes), now)
    ensures Leans(Observe(m, now, wireBytes), c)
    ensures Leans(m, c) && !Rewinds(m, now) ==> Observe(m, now, wireBytes).class' == c
  {
  }

  lemma {:induction false} UneventfulKeepsLean(m: Mosaic, run: seq<Sighting>, c: TrafficClass)
    requires Leans(m, c) && UneventfulRun(m, run)
    ensures Leans(ObserveAll(m, run), c)
    decreases |run|
  {
    if run != [] {
      UneventfulKeepsLean(Observe(m, run[0].now, run[0].wireBytes), run[1..], c);
    }
  }

  /**
   Two successive verdicts for one class settle it, whatever the class was,
   unless the clock was turned back or a burst came in between; and a burst
   settles it for a stream.
   */
  lemma AgreementChanges(m: Mosaic, first: Sighting, between: seq<Sighting>, second: Sighting, c: TrafficClass)
    requires Verdict(m, first.now) == Some(c)
    requires !Bursting(Observe(m, first.now, first.wireBytes), first.now)
    requires UneventfulRun(Observe(m, first.now, first.wireBytes), between)
    ensures var s := ObserveAll(Observe(m, first.now, first.wireBytes), between);
            var t := Observe(s, second.now, second.wireBytes);
            Verdict(s, second.now) == Some(c) && !Rewinds(s, second.now) ==>
              t.class' == if Bursting(t, second.now) then StreamClass else c
  {
    var start := Observe(m, first.now, first.wireBytes);
    VerdictLeans(m, first.now, first.wireBytes, c);
    UneventfulKeepsLean(start, between, c);
    var s := ObserveAll(start, between);
    BurstIsStream(s, second.now, second.wireBytes);
    if Verdict(s, second.now) == Some(c) && !Bursting(Observe(s, second.now, second.wireBytes), second.now) {
      VerdictLeans(s, second.now, second.wireBytes, c);
    }
  }
}
