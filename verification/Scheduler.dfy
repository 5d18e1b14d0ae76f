/**
 The lease scheduler: scores every eligible carrier from local measurements and
 keeps the current lease unless another wins by more than a threshold.
 */
module LeaseScheduler {
  import opened Common
  import opened Arithmetic

  type uint64 = x: int | 0 <= x <= 0xFFFF_FFFF_FFFF_FFFF
  type uint32 = x: int | 0 <= x <= 0xFFFF_FFFF

  /** Lease keys are 16 bytes compared byte by byte: numbers in big-endian order, zero being none. */
  type Key = nat

  const MILLISECOND: int := 1_000_000
  const MINUTE: int := 60_000 * MILLISECOND
  const MAX_CANDIDATES: nat := 8
  const DEFAULT_THRESHOLD: uint64 := 5_000
  const SENTINEL: uint64 := 0xFFFF_FFFF_FFFF_FFFF

  datatype FlowClass = Unknown | Interactive | Bulk | Datagram

  datatype Candidate = Candidate(
    key: Key,
    carrierValid: bool,
    healthy: bool,
    supportsDatagram: bool,
    activeStreams: uint64,
    maxStreams: uint64,
    queueBytes: uint64,
    rtt: int,
    lossPpm: uint32,
    throughputBps: uint64)

  datatype ScheduleError = SchedulerConfig | NoHealthyLease

  predicate Eligible(class': FlowClass, c: Candidate) {
    && c.key != 0 && c.carrierValid && c.healthy && c.maxStreams != 0
    && c.activeStreams < c.maxStreams && 0 <= c.rtt <= MINUTE && c.lossPpm <= 1_000_000
    && (class'.Datagram? ==> c.supportsDatagram) && !class'.Unknown?
  }

  /** The load in thousandths, with the product wrapping as 64-bit words do. */
  function Load(c: Candidate): (load: nat)
    requires c.maxStreams != 0
  {
    ((c.activeStreams * 1000) % 0x1_0000_0000_0000_0000) / c.maxStreams
  }

  /** The cost of a slow lease: large for a small throughput. */
  function Slowness(bps: uint64): (cost: nat)
    ensures cost <= 1_000_000_000
  {
    QuotientBelow(1_000_000_000, bps / 1024 + 1, 1_000_000_001);
    1_000_000_000 / (bps / 1024 + 1)
  }

  function Score(class': FlowClass, c: Candidate): (score: nat)
    requires Eligible(class', c)
  {
    var rtt := c.rtt / MILLISECOND;
    var loss := c.lossPpm;
    var queue := Min(c.queueBytes / 1024, 1_000_000);
    match class'
    case Interactive => rtt * 100 + loss / 10 + Load(c) * 20 + queue * 2
    case Bulk => Slowness(c.throughputBps) + loss / 5 + Load(c) * 10 + queue
    case Datagram => rtt * 150 + loss / 5 + Load(c) * 10 + queue * 3
  }

  /**
   Even when the product wraps, the load stays below one thousand: a wrap
   needs so many active streams that the divisor exceeds a thousandth of the
   word range.
   */
  lemma LoadBelowThousand(c: Candidate)
    requires c.maxStreams != 0 && c.activeStreams < c.maxStreams
    ensures Load(c) < 1000
  {
    var product := c.activeStreams * 1000;
    if product < 0x1_0000_0000_0000_0000 {
      QuotientBelow(product, c.maxStreams, 1000);
    } else {
      QuotientBelow(product % 0x1_0000_0000_0000_0000, c.maxStreams, 1000);
    }
  }

  /** No score overflows a word or equals the sentinel of an unscored lease. */
  lemma ScoreBelowSentinel(class': FlowClass, c: Candidate)
    requires Eligible(class', c)
    ensures Score(class', c) < 1_010_000_000 < SENTINEL
  {
    LoadBelowThousand(c);
  }

  /** A unit of load, round trip, loss and queue, by class. */
  function RttWeight(class': FlowClass): (w: nat) {
    match class' case Interactive => 100 case Datagram => 150 case _ => 0
  }

  function LoadWeight(class': FlowClass): (w: nat) {
    if class'.Interactive? then 20 else 10
  }

  function QueueWeight(class': FlowClass): (w: nat) {
    match class' case Interactive => 2 case Datagram => 3 case _ => 1
  }

  /**
   What a measurement is worth: so much for a millisecond, for ten (or five)
   lost packets in a million, for a thousandth of load and for a queued
   kibibyte; throughput counts for bulk traffic alone, and nothing else does.
   */
  lemma ScoreWeighs(class': FlowClass, a: Candidate, b: Candidate, ms: nat, loss: nat, kib: nat)
    requires Eligible(class', a) && Eligible(class', b)
    requires b.rtt == a.rtt + ms * MILLISECOND && b.queueBytes == a.queueBytes + 1024 * kib
    requires b.lossPpm == a.lossPpm + loss * (if class'.Interactive? then 10 else 5)
    requires b.queueBytes / 1024 <= 1_000_000
    ensures Score(class', b) - Score(class', a)
         == RttWeight(class') * ms + loss + LoadWeight(class') * (Load(b) - Load(a)) + QueueWeight(class') * kib
            + if class'.Bulk? then Slowness(b.throughputBps) - Slowness(a.throughputBps) else 0
  {
    assert b.rtt / MILLISECOND == a.rtt / MILLISECOND + ms;
    assert b.queueBytes / 1024 == a.queueBytes / 1024 + kib;
    assert b.lossPpm / (if class'.Interactive? then 10 else 5)
        == a.lossPpm / (if class'.Interactive? then 10 else 5) + loss;
  }

  /** A lease that is no worse in any measurement scores no worse. */
  lemma ScoreIsMonotone(class': FlowClass, a: Candidate, b: Candidate)
    requires Eligible(class', a) && Eligible(class', b)
    requires a.rtt <= b.rtt && a.lossPpm <= b.lossPpm && a.queueBytes <= b.queueBytes
    requires a.throughputBps >= b.throughputBps && Load(a) <= Load(b)
    ensures Score(class', a) <= Score(class', b)
  {
    QuotientGrows(a.rtt, b.rtt, MILLISECOND);
    QuotientGrows(a.queueBytes, b.queueBytes, 1024);
    QuotientGrows(a.lossPpm, b.lossPpm, 10);
    QuotientGrows(a.lossPpm, b.lossPpm, 5);
    SlownessFalls(b.throughputBps, a.throughputBps);
  }

  lemma QuotientGrows(a: nat, b: nat, n: nat)
    requires a <= b && 0 < n
    ensures a / n <= b / n
  {
    if a / n > b / n {
      MultiplesApart(n, b / n, a / n);
    }
  }

  lemma SlownessFalls(slow: uint64, fast: uint64)
    requires slow <= fast
    ensures Slowness(fast) <= Slowness(slow)
  {
    QuotientGrows(slow, fast, 1024);
    var d, e := slow / 1024 + 1, fast / 1024 + 1;
    var q := 1_000_000_000 / e;
    assert q * e <= 1_000_000_000;
    ProductGrows(q, d, e);
    assert q * d <= 1_000_000_000;
    QuotientAtLeast(1_000_000_000, d, q);
  }

  lemma QuotientAtLeast(x: nat, d: nat, q: nat)
    requires 0 < d && q * d <= x
    ensures q <= x / d
  {
    if x / d < q {
      MultiplesApart(d, x / d, q);
    }
  }

  /** With the same number of streams allowed, more of them is more load, as long as the product does not wrap. */
  lemma LoadGrows(a: Candidate, b: Candidate)
    requires a.maxStreams == b.maxStreams != 0 && a.activeStreams <= b.activeStreams
    requires b.activeStreams * 1000 < 0x1_0000_0000_0000_0000
    ensures Load(a) <= Load(b)
  {
    QuotientGrows(a.activeStreams * 1000, b.activeStreams * 1000, a.maxStreams);
  }

  lemma WrappingLowers(product: nat, wrapped: nat, d: nat)
    requires 0 < d && wrapped + d <= product
    ensures wrapped / d < product / d
  {
    QuotientGrows(wrapped + d, product, d);
    var q, r := wrapped / d, wrapped % d;
    assert wrapped + d == d * (q + 1) + r;
    BlockIsUnique(d, q + 1, r);
  }

  lemma WrappedBy(product: nat)
    ensures product < 0x1_0000_0000_0000_0000 ==> product % 0x1_0000_0000_0000_0000 == product
    ensures product >= 0x1_0000_0000_0000_0000 ==>
              product % 0x1_0000_0000_0000_0000 + 0x1_0000_0000_0000_0000 <= product
  {
  }

  lemma ShareWraps(product: nat, d: uint64)
    requires 0 < d
    ensures (product % 0x1_0000_0000_0000_0000) / d == product / d <==> product < 0x1_0000_0000_0000_0000
  {
    WrappedBy(product);
    var wrapped := product % 0x1_0000_0000_0000_0000;
    if product >= 0x1_0000_0000_0000_0000 {
      WrappingLowers(product, wrapped, d);
    }
  }

  /** The load is the true share of the streams in use exactly as long as the product does not wrap. */
  lemma LoadIsTrueShare(c: Candidate)
    requires c.maxStreams != 0
    ensures Load(c) == c.activeStreams * 1000 / c.maxStreams <==> c.activeStreams * 1000 < 0x1_0000_0000_0000_0000
  {
    ShareWraps(c.activeStreams * 1000, c.maxStreams);
  }

  /** Past that a nearly full lease can count as an empty one. */
  lemma LoadWraps(c: Candidate)
    requires c.activeStreams == 18_446_744_073_709_552 && c.maxStreams == 18_446_744_073_709_553
    ensures Load(c) == 0 && Load(c.(activeStreams := c.activeStreams - 1)) == 999
  {
  }

  // ---------------------------------------------------------------------
  // The choice
  // ---------------------------------------------------------------------

  /** Smaller score, or the same score and a smaller key. */
  predicate Ahead(class': FlowClass, a: Candidate, b: Candidate)
    requires Eligible(class', a) && Eligible(class', b)
  {
    Score(class', a) < Score(class', b) || (Score(class', a) == Score(class', b) && a.key < b.key)
  }

  /** An eligible candidate none is ahead of. */
  ghost predicate IsBest(class': FlowClass, candidates: seq<Candidate>, best: Candidate) {
    && best in candidates && Eligible(class', best)
    && forall c :: c in candidates && Eligible(class', c) ==> !Ahead(class', c, best)
  }

  /** The score of the current lease: that of its last eligible candidate, the sentinel without one. */
  function CurrentScore(class': FlowClass, candidates: seq<Candidate>, current: Key): (score: nat) {
    if candidates == [] then SENTINEL
    else
      var last := candidates[|candidates| - 1];
      if Eligible(class', last) && last.key == current then Score(class', last)
      else CurrentScore(class', candidates[..|candidates| - 1], current)
  }

  /** The current lease is eligible and not beaten by more than the threshold. */
  predicate Retained(best: nat, current: Key, currentScore: nat, threshold: nat) {
    current != 0 && currentScore != SENTINEL && (best >= currentScore || currentScore - best <= threshold)
  }

  ghost predicate IsChoice(class': FlowClass, candidates: seq<Candidate>, current: Key, threshold: nat,
                           choice: Option<Key>)
  {
    match choice
    case None => forall c :: c in candidates ==> !Eligible(class', c)
    case Some(key) =>
      exists best :: IsBest(class', candidates, best)
        && key == if Retained(Score(class', best), current, CurrentScore(class', candidates, current), threshold)
                  then current else best.key
  }

  function Threshold(configured: uint64): (t: uint64) {
    if configured == 0 then DEFAULT_THRESHOLD else configured
  }

  /** The best of a list stays best beside a candidate that is not ahead of it, and gives way to one that is. */
  lemma BestExtends(class': FlowClass, front: seq<Candidate>, winner: Candidate, c: Candidate)
    requires IsBest(class', front, winner)
    ensures !Eligible(class', c) ==> IsBest(class', front + [c], winner)
    ensures Eligible(class', c) ==> IsBest(class', front + [c], if Ahead(class', c, winner) then c else winner)
  {
  }

  /** A lease that can serve the class: well, with a stream left, and measured within bounds. */
  predicate Usable(class': FlowClass, c: Candidate) {
    && c.healthy && c.carrierValid && c.key > 0 && c.activeStreams < c.maxStreams
    && 0 <= c.rtt <= 60_000_000_000 && c.lossPpm <= 1_000_000
    && match class' case Datagram => c.supportsDatagram case Unknown => false case _ => true
  }

  /**
   The lease chosen can serve the class, and costs no more than any other that
   can; the current one is kept at up to the threshold more, and of several
   equal ones the smallest key is taken.
   */
  ghost predicate GoodChoice(class': FlowClass, candidates: seq<Candidate>, current: Key, threshold: nat, key: Key) {
    exists c :: c in candidates && c.key == key && Usable(class', c) && Eligible(class', c) && key != 0
      && forall d :: d in candidates && Usable(class', d) ==>
           && Eligible(class', d)
           && if key == current then Score(class', c) <= Score(class', d) + threshold
              else Score(class', c) <= Score(class', d)
                   && (Score(class', c) == Score(class', d) ==> key <= d.key)
  }

  lemma {:induction false} CurrentIsCandidate(class': FlowClass, candidates: seq<Candidate>, current: Key)
    requires CurrentScore(class', candidates, current) != SENTINEL
    ensures exists c :: c in candidates && Eligible(class', c) && c.key == current
                        && Score(class', c) == CurrentScore(class', candidates, current)
    decreases |candidates|
  {
    var last := candidates[|candidates| - 1];
    if !Eligible(class', last) || last.key != current {
      CurrentIsCandidate(class', candidates[..|candidates| - 1], current);
    }
  }

  lemma ChoiceIsGood(class': FlowClass, candidates: seq<Candidate>, current: Key, threshold: nat, choice: Option<Key>)
    requires IsChoice(class', candidates, current, threshold, choice)
    ensures choice.None? <==> forall c :: c in candidates ==> !Usable(class', c)
    ensures choice.Some? ==> GoodChoice(class', candidates, current, threshold, choice.value)
  {
    assert forall c :: c in candidates ==> (Usable(class', c) <==> Eligible(class', c));
    if choice.Some? {
      var kept := CurrentScore(class', candidates, current);
      var best :| IsBest(class', candidates, best)
        && choice.value == if Retained(Score(class', best), current, kept, threshold) then current else best.key;
      if choice.value != best.key {
        CurrentIsCandidate(class', candidates, current);
      }
    }
  }

  method Select(switchThreshold: uint64, class': FlowClass, current: Key, candidates: seq<Candidate>)
    returns (choice: Option<Key>, error: Option<ScheduleError>)
    ensures error == Some(SchedulerConfig) <==>
              class'.Unknown? || |candidates| == 0 || |candidates| > MAX_CANDIDATES
    ensures error != Some(SchedulerConfig) ==>
              && IsChoice(class', candidates, current, Threshold(switchThreshold), choice)
              && (choice.None? <==> error == Some(NoHealthyLease))
              && (error == Some(NoHealthyLease) <==> forall c :: c in candidates ==> !Usable(class', c))
    ensures choice.Some? ==> GoodChoice(class', candidates, current, Threshold(switchThreshold), choice.value)
  {
    if class'.Unknown? || |candidates| == 0 || |candidates| > MAX_CANDIDATES {
      return None, Some(SchedulerConfig);
    }
    var threshold := if switchThreshold == 0 then DEFAULT_THRESHOLD else switchThreshold;
    var best, bestScore, currentScore, winner := Scan(class', current, candidates);
    if best == 0 {
      ChoiceIsGood(class', candidates, current, threshold, None);
      return None, Some(NoHealthyLease);
    }
    assert IsBest(class', candidates, winner);
    if current != 0 && currentScore != SENTINEL
       && (bestScore >= currentScore || currentScore - bestScore <= threshold) {
      best := current;
    }
    ChoiceIsGood(class', candidates, current, threshold, Some(best));
    return Some(best), None;
  }

  /** The loop of `Select`: the best eligible lease, if any, and the score of the current one. */
  method Scan(class': FlowClass, current: Key, candidates: seq<Candidate>)
    returns (best: Key, bestScore: nat, currentScore: nat, ghost winner: Candidate)
    requires !class'.Unknown? && candidates != []
    ensures currentScore == CurrentScore(class', candidates, current)
    ensures best == 0 ==> forall c :: c in candidates ==> !Eligible(class', c)
    ensures best != 0 ==>
              IsBest(class', candidates, winner) && best == winner.key && bestScore == Score(class', winner)
  {
    best, bestScore, currentScore, winner := 0, SENTINEL, SENTINEL, candidates[0];
    for i := 0 to |candidates|
      invariant currentScore == CurrentScore(class', candidates[..i], current)
      invariant best == 0 ==> forall c :: c in candidates[..i] ==> !Eligible(class', c)
      invariant best != 0 ==>
                  IsBest(class', candidates[..i], winner) && best == winner.key && bestScore == Score(class', winner)
    {
      var c := candidates[i];
      assert candidates[..i + 1] == candidates[..i] + [c];
      assert candidates[..i + 1][..i] == candidates[..i];
      if best != 0 {
        BestExtends(class', candidates[..i], winner, c);
      }
      if Eligible(class', c) {
        var score := Score(class', c);
        if c.key == current {
          currentScore := score;
        }
        if best == 0 || score < bestScore || (score == bestScore && c.key < best) {
          best, bestScore, winner := c.key, score, c;
        }
      }
    }
    assert candidates[..|candidates|] == candidates;
  }

  // ---------------------------------------------------------------------
  // What the choice promises
  // ---------------------------------------------------------------------

  ghost predicate DistinctKeys(candidates: seq<Candidate>) {
    forall i, j :: 0 <= i < j < |candidates| ==> candidates[i].key != candidates[j].key
  }

  /** With distinct keys the current score is the score of the one candidate with that key. */
  lemma {:induction false} CurrentScoreIs(class': FlowClass, candidates: seq<Candidate>, current: Key)
    requires DistinctKeys(candidates)
    ensures forall c :: c in candidates && c.key == current && Eligible(class', c) ==>
              CurrentScore(class', candidates, current) == Score(class', c)
    ensures (forall c :: c in candidates && c.key == current ==> !Eligible(class', c)) ==>
              CurrentScore(class', candidates, current) == SENTINEL
    decreases |candidates|
  {
    if candidates != [] {
      var front := candidates[..|candidates| - 1];
      assert candidates == front + [candidates[|candidates| - 1]];
      CurrentScoreIs(class', front, current);
    }
  }

  /** The best candidate is unique up to its score and key. */
  lemma BestIsUnique(class': FlowClass, first: seq<Candidate>, second: seq<Candidate>, a: Candidate, b: Candidate)
    requires forall c :: c in first <==> c in second
    requires IsBest(class', first, a) && IsBest(class', second, b)
    ensures a.key == b.key && Score(class', a) == Score(class', b)
  {
  }

  /** For distinct keys the choice does not depend on the order of the candidates. */
  lemma ChoiceIgnoresOrder(class': FlowClass, first: seq<Candidate>, second: seq<Candidate>, current: Key,
                           threshold: nat, a: Option<Key>, b: Option<Key>)
    requires DistinctKeys(first) && DistinctKeys(second) && forall c :: c in first <==> c in second
    requires IsChoice(class', first, current, threshold, a) && IsChoice(class', second, current, threshold, b)
    ensures a == b
  {
    CurrentScoreIs(class', first, current);
    CurrentScoreIs(class', second, current);
    if a.Some? && b.Some? {
      var x :| IsBest(class', first, x)
        && a.value == if Retained(Score(class', x), current, CurrentScore(class', first, current), threshold)
                      then current else x.key;
      var y :| IsBest(class', second, y)
        && b.value == if Retained(Score(class', y), current, CurrentScore(class', second, current), threshold)
                      then current else y.key;
      BestIsUnique(class', first, second, x, y);
      SameCurrentScore(class', first, second, current);
    }
  }

  lemma SameCurrentScore(class': FlowClass, first: seq<Candidate>, second: seq<Candidate>, current: Key)
    requires DistinctKeys(first) && DistinctKeys(second) && forall c :: c in first <==> c in second
    ensures CurrentScore(class', first, current) == CurrentScore(class', second, current)
  {
    CurrentScoreIs(class', first, current);
    CurrentScoreIs(class', second, current);
    if c :| c in first && c.key == current && Eligible(class', c) {
      assert c in second;
    }
  }

  /** Hysteresis settles: the lease just chosen is chosen again. */
  lemma ChoiceIsStable(class': FlowClass, candidates: seq<Candidate>, current: Key, threshold: nat, key: Key)
    requires IsChoice(class', candidates, current, threshold, Some(key))
    ensures IsChoice(class', candidates, key, threshold, Some(key))
  {
    var best :| IsBest(class', candidates, best)
      && key == if Retained(Score(class', best), current, CurrentScore(class', candidates, current), threshold)
                then current else best.key;
    assert key == if Retained(Score(class', best), key, CurrentScore(class', candidates, key), threshold)
                  then key else best.key;
  }

  /** A lease is left only for one that beats it by more than the threshold, or when it is no longer eligible. */
  lemma SwitchNeedsMargin(class': FlowClass, candidates: seq<Candidate>, current: Key, threshold: nat, key: Key,
                          c: Candidate)
    requires DistinctKeys(candidates) && IsChoice(class', candidates, current, threshold, Some(key))
    requires key != current && c in candidates && c.key == current && Eligible(class', c)
    ensures exists best :: IsBest(class', candidates, best) && best.key == key
              && Score(class', best) + threshold < Score(class', c)
  {
    CurrentScoreIs(class', candidates, current);
    ScoreBelowSentinel(class', c);
  }
}
