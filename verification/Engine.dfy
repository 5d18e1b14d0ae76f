/**
 The cover-traffic engine: a token bucket that real traffic fills and padding
 and dummies empty, played against the active profile.
 */
module CoverEngine {
  import opened Common
  import opened Arithmetic
  import opened CoverProfiles
  import opened MosaicClassifier

  const BURST_IDLE: int := 50 * MILLISECOND
  const DEFAULT_BUDGET: nat := 65_535
  const JITTER_STEP: int := 250 * MICROSECOND

  // ---------------------------------------------------------------------
  // The budget
  // ---------------------------------------------------------------------

  /** One planned call: a real cell with its padding, or a dummy. */
  datatype Plan = Real(wireBytes: nat, padding: nat) | Dummy(size: nat)

  /** Credit after the traffic of a call has earned its share, in hundredths of a byte. */
  function Earned(credit: nat, percent: nat, maximum: nat, plan: Plan): (c: nat) {
    match plan
    case Real(wireBytes, _) => Min(maximum, credit + percent * wireBytes)
    case Dummy(_) => credit
  }

  function Overhead(plan: Plan): (bytes: nat) {
    match plan
    case Real(_, padding) => padding
    case Dummy(size) => size
  }

  function Traffic(plan: Plan): (bytes: nat) {
    match plan
    case Real(wireBytes, _) => wireBytes
    case Dummy(_) => 0
  }

  /** The call spends no more than it has. */
  predicate Affordable(credit: nat, percent: nat, maximum: nat, plan: Plan) {
    100 * Overhead(plan) <= Earned(credit, percent, maximum, plan)
  }

  function Spent(credit: nat, percent: nat, maximum: nat, plan: Plan): (c: nat)
    requires Affordable(credit, percent, maximum, plan)
  {
    Earned(credit, percent, maximum, plan) - 100 * Overhead(plan)
  }

  ghost predicate AffordableRun(credit: nat, percent: nat, maximum: nat, plans: seq<Plan>)
    decreases |plans|
  {
    plans == [] ||
    (&& Affordable(credit, percent, maximum, plans[0])
     && AffordableRun(Spent(credit, percent, maximum, plans[0]), percent, maximum, plans[1..]))
  }

  function TotalOverhead(plans: seq<Plan>): (bytes: nat) {
    if plans == [] then 0 else Overhead(plans[0]) + TotalOverhead(plans[1..])
  }

  function TotalTraffic(plans: seq<Plan>): (bytes: nat) {
    if plans == [] then 0 else Traffic(plans[0]) + TotalTraffic(plans[1..])
  }

  /**
   The budget: over any window of calls the overhead is at most the agreed
   share of the real bytes in it plus the credit it started with, hence plus
   one full bucket; and from an empty bucket, at most the agreed share.
   */
  lemma {:induction false} BudgetHolds(credit: nat, percent: nat, maximum: nat, plans: seq<Plan>)
    requires credit <= maximum && AffordableRun(credit, percent, maximum, plans)
    ensures 100 * TotalOverhead(plans) <= percent * TotalTraffic(plans) + credit
    ensures 100 * TotalOverhead(plans) <= percent * TotalTraffic(plans) + maximum
    ensures credit == 0 ==> 100 * TotalOverhead(plans) <= percent * TotalTraffic(plans)
    decreases |plans|
  {
    if plans != [] {
      BudgetHolds(Spent(credit, percent, maximum, plans[0]), percent, maximum, plans[1..]);
      Distributes(percent, Traffic(plans[0]), TotalTraffic(plans[1..]));
    }
  }

  function CreditAfter(credit: nat, percent: nat, maximum: nat, plans: seq<Plan>): (c: nat)
    requires AffordableRun(credit, percent, maximum, plans)
    decreases |plans|
  {
    if plans == [] then credit
    else CreditAfter(Spent(credit, percent, maximum, plans[0]), percent, maximum, plans[1..])
  }

  /** An affordable run splits into two affordable runs. */
  lemma {:induction false} RunSplits(credit: nat, percent: nat, maximum: nat, first: seq<Plan>, second: seq<Plan>)
    requires credit <= maximum
    ensures AffordableRun(credit, percent, maximum, first + second) <==>
              && AffordableRun(credit, percent, maximum, first)
              && AffordableRun(CreditAfter(credit, percent, maximum, first), percent, maximum, second)
    ensures AffordableRun(credit, percent, maximum, first + second) ==>
              && CreditAfter(credit, percent, maximum, first) <= maximum
              && CreditAfter(credit, percent, maximum, first + second)
                 == CreditAfter(CreditAfter(credit, percent, maximum, first), percent, maximum, second)
    decreases |first|
  {
    if first == [] {
      assert first + second == second;
    } else {
      assert (first + second)[1..] == first[1..] + second;
      if Affordable(credit, percent, maximum, first[0]) {
        RunSplits(Spent(credit, percent, maximum, first[0]), percent, maximum, first[1..], second);
      }
    }
  }

  lemma CreditStep(credit: nat, percent: nat, maximum: nat, plan: Plan, rest: nat)
    requires Affordable(credit, percent, maximum, plan) && credit + percent * (Traffic(plan) + rest) <= maximum
    ensures percent * (Traffic(plan) + rest) == percent * Traffic(plan) + percent * rest
    ensures Spent(credit, percent, maximum, plan) == credit + percent * Traffic(plan) - 100 * Overhead(plan)
    ensures Spent(credit, percent, maximum, plan) + percent * rest <= maximum
  {
    Distributes(percent, Traffic(plan), rest);
  }

  /**
   Credit is neither lost nor made up: as long as the bucket is not filled to
   the brim, it holds exactly what the real bytes earned and the overhead has
   not spent.
   */
  lemma {:induction false} CreditIsKept(credit: nat, percent: nat, maximum: nat, plans: seq<Plan>)
    requires AffordableRun(credit, percent, maximum, plans) && credit + percent * TotalTraffic(plans) <= maximum
    ensures CreditAfter(credit, percent, maximum, plans)
         == credit + percent * TotalTraffic(plans) - 100 * TotalOverhead(plans)
    decreases |plans|
  {
    if plans != [] {
      CreditStep(credit, percent, maximum, plans[0], TotalTraffic(plans[1..]));
      CreditIsKept(Spent(credit, percent, maximum, plans[0]), percent, maximum, plans[1..]);
    }
  }

  /** The budget over any contiguous part of a history that began with an empty bucket. */
  lemma BudgetOfAnyWindow(percent: nat, maximum: nat, plans: seq<Plan>, from: nat, to: nat)
    requires AffordableRun(0, percent, maximum, plans) && from <= to <= |plans|
    ensures 100 * TotalOverhead(plans[from..to]) <= percent * TotalTraffic(plans[from..to]) + maximum
    ensures 100 * TotalOverhead(plans[..to]) <= percent * TotalTraffic(plans[..to])
  {
    assert plans == plans[..to] + plans[to..];
    RunSplits(0, percent, maximum, plans[..to], plans[to..]);
    assert plans[..to] == plans[..from] + plans[from..to];
    RunSplits(0, percent, maximum, plans[..from], plans[from..to]);
    BudgetHolds(0, percent, maximum, plans[..to]);
    BudgetHolds(CreditAfter(0, percent, maximum, plans[..from]), percent, maximum, plans[from..to]);
  }

  // ---------------------------------------------------------------------
  // Uniform choice
  // ---------------------------------------------------------------------

  /** Candidates at or above this are drawn again. */
  function RejectFrom(limit: nat): (threshold: nat)
    requires 0 < limit <= MAX_UINT64
  {
    MAX_UINT64 - MAX_UINT64 % limit
  }

  /** The rejection threshold is a whole number of blocks of `limit`, and more than half the word range. */
  lemma ThresholdIsWhole(limit: nat)
    requires 0 < limit <= MAX_UINT64
    ensures RejectFrom(limit) == limit * (MAX_UINT64 / limit)
    ensures 0x7FFF_FFFF_FFFF_FFFF <= RejectFrom(limit)
  {
    var q, r := MAX_UINT64 / limit, MAX_UINT64 % limit;
    assert MAX_UINT64 == limit * q + r;
    if q == 0 {
      assert false;
    }
    ProductGrows(limit, 1, q);
  }

  /**
   No result is favoured: every result is reached from exactly one candidate
   in each block, and every accepted candidate lies in a block.
   */
  lemma UniformIsUnbiased(limit: nat, block: nat, result: nat, candidate: nat)
    requires 0 < limit <= MAX_UINT64
    ensures block < MAX_UINT64 / limit && result < limit ==>
              && limit * block + result < RejectFrom(limit)
              && (limit * block + result) % limit == result && (limit * block + result) / limit == block
    ensures candidate < RejectFrom(limit) ==> candidate / limit < MAX_UINT64 / limit
  {
    ThresholdIsWhole(limit);
    if block < MAX_UINT64 / limit && result < limit {
      BlockIsUnique(limit, block, result);
      MultiplesApart(limit, block, MAX_UINT64 / limit);
    }
    if candidate < RejectFrom(limit) {
      QuotientBelow(candidate, limit, MAX_UINT64 / limit);
    }
  }

  /** The words of a block that open a gate of `numerator` in `denominator`. */
  ghost function OpeningWords(numerator: nat, denominator: nat, block: nat): (words: set<int>)
    requires 0 < denominator
  {
    set w | denominator * block <= w < denominator * block + denominator && w % denominator < numerator
  }

  ghost function Interval(low: int, n: nat): (words: set<int>)
    ensures |words| == n && forall w :: w in words <==> low <= w < low + n
    decreases n
  {
    if n == 0 then {} else Interval(low, n - 1) + {low + n - 1}
  }

  /** Of the words of every block, exactly `numerator` open the gate. */
  lemma GateOpensForShare(numerator: nat, denominator: nat, block: nat)
    requires numerator <= denominator && 0 < denominator
    ensures |OpeningWords(numerator, denominator, block)| == numerator
  {
    var low := denominator * block;
    forall w | low <= w < low + denominator
      ensures w % denominator == w - low
    {
      BlockIsUnique(denominator, block, w - low);
    }
    assert OpeningWords(numerator, denominator, block) == Interval(low, numerator);
  }

  lemma InItsBlock(word: nat, numerator: nat, denominator: nat)
    requires 0 < denominator
    ensures word % denominator < numerator <==>
              exists block: nat :: word in OpeningWords(numerator, denominator, block)
  {
    var block := word / denominator;
    assert word == denominator * block + word % denominator;
    assert word % denominator < numerator <==> word in OpeningWords(numerator, denominator, block);
  }

  // ---------------------------------------------------------------------
  // The engine
  // ---------------------------------------------------------------------

  function SaturatingAdd(a: nat, b: nat): (r: nat)
    requires a <= MAX_UINT64
  {
    if MAX_UINT64 - a < b then MAX_UINT64 else a + b
  }

  ghost predicate UsableFrom(words: nat -> nat, n: nat) {
    exists j: nat :: n <= j && words(j) < 0x7FFF_FFFF_FFFF_FFFF
  }

  /** The keyed stream gives usable words again and again. */
  ghost predicate Fair(words: nat -> nat) {
    && (forall i :: words(i) <= MAX_UINT64)
    && (forall n: nat :: UsableFrom(words, n))
  }

  function ProfileOf(c: TrafficClass): (p: Profile) {
    match c
    case RealtimeClass => Interactive
    case StreamClass => Stream
    case _ => Web
  }

  /** What `desiredPadding` may ask for: the distance to one of the next buckets that fit the cell. */
  ghost predicate IsBucketDistance(d: Definition, wireBytes: nat, padding: nat) {
    exists i :: 0 <= i < |d.buckets| && d.buckets[i] == wireBytes + padding
      && (forall k :: 0 <= k < i - (d.lookahead - 1) ==> d.buckets[k] < wireBytes)
  }

  /** The padding a cell should get: none beyond the last bucket, otherwise a bucket distance. */
  ghost predicate IsDesired(d: Definition, wireBytes: nat, padding: nat) {
    if forall i :: 0 <= i < |d.buckets| ==> d.buckets[i] < wireBytes then padding == 0
    else IsBucketDistance(d, wireBytes, padding)
  }

  /** The desired padding, cut down to the credit and to the profile's limit. */
  ghost predicate IsPadding(d: Definition, wireBytes: nat, credit: nat, padding: nat) {
    exists desired: nat :: IsDesired(d, wireBytes, desired)
      && padding == Min(desired, Min(credit / 100, d.maxPadding))
  }

  class Engine {
    const baseline: Profile
    const percent: nat
    const maxCredit: nat
    const variants: map<Profile, Definition>
    const words: nat -> nat
    var counter: nat
    var activeProfile: Profile
    var profile: Definition
    var creditUnits: nat
    var realBytes: nat
    var paddingBytes: nat
    var dummyBytes: nat
    var mosaicEnabled: bool
    var mosaic: Mosaic
    var lastRealPlan: int
    /** Every call so far. */
    ghost var plans: seq<Plan>

    /** The credit is what the history of calls leaves of it. */
    ghost predicate Solvent()
      reads this
    {
      && percent <= 100 && maxCredit <= 100 * MAX_WIRE_CELL
      && AffordableRun(0, percent, maxCredit, plans)
      && creditUnits == CreditAfter(0, percent, maxCredit, plans) <= maxCredit
      && realBytes <= MAX_UINT64 && paddingBytes <= MAX_UINT64 && dummyBytes <= MAX_UINT64
    }

    /** What is played is playable, and is the classifier's choice once it is enabled. */
    ghost predicate Equipped()
      reads this
    {
      && Fair(words)
      && (forall p :: p in variants ==> Playable(variants[p]))
      && Web in variants && Interactive in variants && Stream in variants
      && Playable(profile)
      && (mosaicEnabled ==> activeProfile == ProfileOf(mosaic.class') && profile == variants[activeProfile])
      && CountersOk(mosaic)
    }

    ghost predicate Valid()
      reads this
    {
      Solvent() && Equipped()
    }

    constructor (baseline: Profile, percent: nat, budgetBytes: nat, variants: map<Profile, Definition>,
                 words: nat -> nat)
      requires percent <= 100 && budgetBytes <= MAX_WIRE_CELL && Fair(words)
      requires forall p :: p in variants ==> Playable(variants[p])
      requires Web in variants && Interactive in variants && Stream in variants
      ensures Valid() && plans == [] && creditUnits == 0 && !mosaicEnabled
      ensures maxCredit == 100 * if budgetBytes == 0 then DEFAULT_BUDGET else budgetBytes
    {
      this.baseline, this.percent, this.variants, this.words := baseline, percent, variants, words;
      maxCredit := 100 * if budgetBytes == 0 then DEFAULT_BUDGET else budgetBytes;
      counter, activeProfile, profile := 0, baseline, Base(baseline);
      creditUnits, realBytes, paddingBytes, dummyBytes := 0, 0, 0, 0;
      mosaicEnabled, mosaic := false, Mosaic(UnknownClass, 0, 0, 0, 0, 0, UnknownClass, 0, 0);
      lastRealPlan, plans := 0, [];
      new;
      BaseIsPlayable(baseline);
    }

    /** `coverRandom.uniform`: redraws until a word falls below the rejection threshold. */
    method Uniform(limit: nat) returns (result: nat)
      requires 0 < limit <= MAX_UINT64 && Fair(words)
      modifies this`counter
      ensures result < limit && old(counter) < counter
      ensures result == words(counter - 1) % limit && words(counter - 1) < RejectFrom(limit)
      ensures forall i :: old(counter) <= i < counter - 1 ==> words(i) >= RejectFrom(limit)
    {
      ThresholdIsWhole(limit);
      var threshold := MAX_UINT64 - MAX_UINT64 % limit;
      assert UsableFrom(words, counter);
      ghost var bound: nat :| counter <= bound && words(bound) < 0x7FFF_FFFF_FFFF_FFFF;
      while words(counter) >= threshold
        invariant old(counter) <= counter <= bound
        invariant forall i :: old(counter) <= i < counter ==> words(i) >= threshold
        decreases bound - counter
      {
        counter := counter + 1;
      }
      result := words(counter) % limit;
      counter := counter + 1;
    }

    method DesiredPadding(wireBytes: nat) returns (padding: nat)
      requires Playable(profile) && Fair(words)
      modifies this`counter
      ensures IsDesired(profile, wireBytes, padding)
      ensures wireBytes + padding <= Max(wireBytes, MAX_WIRE_CELL)
    {
      if |profile.buckets| == 0 {
        return 0;
      }
      var first := |profile.buckets|;
      var index := 0;
      while index < |profile.buckets|
        invariant 0 <= index <= |profile.buckets| && first == |profile.buckets|
        invariant forall k :: 0 <= k < index ==> profile.buckets[k] < wireBytes
      {
        if profile.buckets[index] >= wireBytes {
          first := index;
          break;
        }
        index := index + 1;
      }
      if first == |profile.buckets| {
        return 0;
      }
      var choices := Min(Max(1, profile.lookahead), |profile.buckets| - first);
      var offset := Uniform(choices);
      assert profile.buckets[first] <= profile.buckets[first + offset];
      padding := profile.buckets[first + offset] - wireBytes;
    }

    /** A delay between the bounds, in steps of a quarter millisecond, shaped towards one end. */
    method RandomDelayRange(minimum: int, maximum: int, shape: Shape) returns (delay: int)
      requires Fair(words) && maximum - minimum <= SECOND
      modifies this`counter
      ensures maximum <= minimum ==> delay == minimum
      ensures minimum < maximum ==> minimum <= delay <= maximum && (delay - minimum) % JITTER_STEP == 0
    {
      if maximum <= minimum {
        return minimum;
      }
      var slots := (maximum - minimum) / JITTER_STEP + 1;
      var selected := Uniform(slots);
      if shape.FrontLoaded? || shape.TailLoaded? {
        var second := Uniform(slots);
        selected := if shape.FrontLoaded? then Min(selected, second) else Max(selected, second);
      }
      BlockIsUnique(JITTER_STEP, selected, 0);
      delay := minimum + JITTER_STEP * selected;
    }

    method EarnCredit(units: nat)
      requires creditUnits <= maxCredit
      modifies this`creditUnits
      ensures creditUnits == Min(maxCredit, old(creditUnits) + units)
    {
      if units >= maxCredit - creditUnits {
        creditUnits := maxCredit;
        return;
      }
      creditUnits := creditUnits + units;
    }

    /** Records a call in the history. */
    ghost method Record(plan: Plan)
      requires AffordableRun(0, percent, maxCredit, plans)
      requires Affordable(CreditAfter(0, percent, maxCredit, plans), percent, maxCredit, plan)
      modifies this`plans
      ensures plans == old(plans) + [plan]
      ensures AffordableRun(0, percent, maxCredit, plans)
      ensures CreditAfter(0, percent, maxCredit, plans)
           == Spent(CreditAfter(0, percent, maxCredit, old(plans)), percent, maxCredit, plan)
    {
      var before := CreditAfter(0, percent, maxCredit, plans);
      assert AffordableRun(before, percent, maxCredit, [plan]);
      RunSplits(0, percent, maxCredit, plans, [plan]);
      plans := plans + [plan];
    }

    /**
     Plans a real cell.  Padding is the distance to a bucket, cut down to what
     the budget and the profile allow; the delay stays within the profile's.
     */
    method PlanReal(now: int, wireBytes: int) returns (accepted: bool, padding: nat, sendAt: int, scheduleDummy: bool)
      requires Valid()
      modifies this
      ensures Valid()
      ensures accepted <==> 0 < wireBytes <= MAX_WIRE_CELL
      ensures !accepted ==> plans == old(plans) && creditUnits == old(creditUnits) && mosaic == old(mosaic)
      ensures accepted ==>
                && plans == old(plans) + [Real(wireBytes, padding)]
                && IsPadding(profile, wireBytes, Earned(old(creditUnits), percent, maxCredit, Real(wireBytes, 0)),
                             padding)
                && padding <= profile.maxPadding && wireBytes + padding <= MAX_WIRE_CELL
                && now <= sendAt <= now + profile.maxRealDelay
                && lastRealPlan == now
                && (profile.dummySizes == [] ==> !scheduleDummy)
                && mosaic == (if old(mosaicEnabled)
                              then MosaicClassifier.Observe(old(mosaic), now, wireBytes) else old(mosaic))
                && (old(lastRealPlan) != 0 && 0 <= now - old(lastRealPlan) < BURST_IDLE ==> sendAt == now)
      ensures accepted && mosaicEnabled && Bursting(mosaic, now) ==>
                mosaic.class'.StreamClass? && activeProfile == Stream && profile == variants[Stream]
    {
      if wireBytes <= 0 || wireBytes > MAX_WIRE_CELL {
        return false, 0, 0, false;
      }
      if mosaicEnabled {
        Observe(now, wireBytes);
      }
      accepted := true;
      padding, sendAt, scheduleDummy := PlanCell(now, wireBytes);
    }

    /** The part of `PlanReal` that follows the observation: the active profile is settled. */
    method PlanCell(now: int, wireBytes: nat) returns (padding: nat, sendAt: int, scheduleDummy: bool)
      requires Solvent() && Playable(profile) && Fair(words) && 0 < wireBytes <= MAX_WIRE_CELL
      modifies this`counter, this`creditUnits, this`realBytes, this`paddingBytes, this`plans, this`lastRealPlan
      ensures Solvent() && plans == old(plans) + [Real(wireBytes, padding)]
      ensures IsPadding(profile, wireBytes, Earned(old(creditUnits), percent, maxCredit, Real(wireBytes, 0)), padding)
      ensures padding <= profile.maxPadding && wireBytes + padding <= MAX_WIRE_CELL
      ensures now <= sendAt <= now + profile.maxRealDelay && lastRealPlan == now
      ensures profile.dummySizes == [] ==> !scheduleDummy
      ensures old(lastRealPlan) != 0 && 0 <= now - old(lastRealPlan) < BURST_IDLE ==> sendAt == now
    {
      realBytes := SaturatingAdd(realBytes, wireBytes);
      padding := Pad(wireBytes);
      var delay := BurstDelay(now);
      lastRealPlan, sendAt := now, now + delay;
      scheduleDummy := ShouldScheduleDummy();
    }

    /** The first cell after an idle gap is delayed, the rest of a burst is not. */
    method BurstDelay(now: int) returns (delay: int)
      requires Playable(profile) && Fair(words)
      modifies this`counter
      ensures 0 <= delay <= profile.maxRealDelay
      ensures lastRealPlan != 0 && 0 <= now - lastRealPlan < BURST_IDLE ==> delay == 0
    {
      delay := 0;
      if lastRealPlan == 0 || now < lastRealPlan || now - lastRealPlan >= BURST_IDLE {
        delay := RandomDelayRange(0, profile.maxRealDelay, profile.shape);
      }
    }

    /** The profile's gate: a fraction of the real cells is followed by a request for a dummy. */
    method ShouldScheduleDummy() returns (selected: bool)
      requires Playable(profile) && Fair(words) && profile.gateDenominator <= MAX_UINT64
      modifies this`counter
      ensures profile.dummySizes == [] || profile.gateNumerator == 0 ==> !selected
      ensures profile.dummySizes != [] && profile.gateNumerator >= profile.gateDenominator ==> selected
      ensures profile.dummySizes != [] && 0 < profile.gateNumerator < profile.gateDenominator ==>
                && old(counter) < counter && words(counter - 1) < RejectFrom(profile.gateDenominator)
                && (selected <==>
                      exists block: nat ::
                        words(counter - 1) in OpeningWords(profile.gateNumerator, profile.gateDenominator, block))
    {
      if |profile.dummySizes| == 0 || profile.gateNumerator == 0 {
        return false;
      }
      if profile.gateNumerator >= profile.gateDenominator {
        return true;
      }
      var draw := Uniform(profile.gateDenominator);
      selected := draw < profile.gateNumerator;
      InItsBlock(words(counter - 1), profile.gateNumerator, profile.gateDenominator);
    }

    /** Earns the credit of a real cell and spends what its padding costs. */
    method Pad(wireBytes: nat) returns (padding: nat)
      requires Solvent() && Playable(profile) && Fair(words) && 0 < wireBytes <= MAX_WIRE_CELL
      modifies this`counter, this`creditUnits, this`paddingBytes, this`plans
      ensures Solvent() && plans == old(plans) + [Real(wireBytes, padding)]
      ensures padding <= profile.maxPadding && wireBytes + padding <= MAX_WIRE_CELL
      ensures IsPadding(profile, wireBytes, Earned(old(creditUnits), percent, maxCredit, Real(wireBytes, 0)), padding)
    {
      ghost var before := creditUnits;
      EarnCredit(percent * wireBytes);
      assert creditUnits == Earned(before, percent, maxCredit, Real(wireBytes, 0));
      padding := ChoosePadding(wireBytes);
      Record(Real(wireBytes, padding));
      creditUnits := creditUnits - 100 * padding;
      paddingBytes := SaturatingAdd(paddingBytes, padding);
    }

    method ChoosePadding(wireBytes: nat) returns (padding: nat)
      requires Playable(profile) && Fair(words) && 0 < wireBytes <= MAX_WIRE_CELL
      modifies this`counter
      ensures IsPadding(profile, wireBytes, creditUnits, padding)
      ensures 100 * padding <= creditUnits && padding <= profile.maxPadding && wireBytes + padding <= MAX_WIRE_CELL
    {
      var desired := DesiredPadding(wireBytes);
      var available := creditUnits / 100;
      padding := Min(desired, Min(available, profile.maxPadding));
    }

    /** Plans a dummy: the largest prefix of the increasing sizes that is affordable, one of them drawn. */
    method PlanDummy(now: int) returns (size: Option<nat>, sendAt: int)
      requires Valid()
      modifies this`counter, this`creditUnits, this`dummyBytes, this`plans
      ensures Valid()
      ensures size.None? <==>
                forall i :: 0 <= i < |profile.dummySizes| ==> 100 * profile.dummySizes[i] > old(creditUnits)
      ensures size.None? ==> plans == old(plans) && creditUnits == old(creditUnits)
      ensures size.Some? ==>
                && size.value in profile.dummySizes && plans == old(plans) + [Dummy(size.value)]
                && now + profile.minDummyDelay <= sendAt <= now + profile.maxDummyDelay
    {
      sendAt := now;
      var affordable := CountAffordable();
      if affordable == 0 {
        return None, now;
      }
      var pick := Uniform(affordable);
      var chosen := profile.dummySizes[pick];
      Record(Dummy(chosen));
      creditUnits := creditUnits - 100 * chosen;
      dummyBytes := SaturatingAdd(dummyBytes, chosen);
      var delay := RandomDelayRange(profile.minDummyDelay, profile.maxDummyDelay, profile.shape);
      size, sendAt := Some(chosen), now + delay;
    }

    /** How many of the increasing dummy sizes the credit covers. */
    method CountAffordable() returns (affordable: nat)
      requires Increasing(profile.dummySizes)
      ensures affordable <= |profile.dummySizes| <= MAX_WIRE_CELL
      ensures forall i :: 0 <= i < |profile.dummySizes| ==>
                (i < affordable <==> 100 * profile.dummySizes[i] <= creditUnits)
    {
      IncreasingIsShort(profile.dummySizes);
      var available := creditUnits / 100;
      affordable := 0;
      while affordable < |profile.dummySizes| && profile.dummySizes[affordable] <= available
        invariant affordable <= |profile.dummySizes|
        invariant forall i :: 0 <= i < affordable ==> profile.dummySizes[i] <= available
      {
        affordable := affordable + 1;
      }
    }

    method Observe(now: int, wireBytes: nat)
      requires Equipped() && mosaicEnabled
      modifies this`mosaic, this`activeProfile, this`profile
      ensures Equipped() && mosaic == MosaicClassifier.Observe(old(mosaic), now, wireBytes)
      ensures Bursting(mosaic, now) ==> mosaic.class'.StreamClass? && activeProfile == Stream
    {
      BurstIsStream(mosaic, now, wireBytes);
      CountersStayOk(mosaic, now, wireBytes);
      mosaic := MosaicClassifier.Observe(mosaic, now, wireBytes);
      SetMosaicClass();
    }

    /** `setMosaicClass`: plays the variant of the class's profile. */
    method SetMosaicClass()
      requires Web in variants && Interactive in variants && Stream in variants
      modifies this`activeProfile, this`profile
      ensures activeProfile == ProfileOf(mosaic.class') && profile == variants[activeProfile]
    {
      activeProfile := Web;
      if mosaic.class'.RealtimeClass? {
        activeProfile := Interactive;
      } else if mosaic.class'.StreamClass? {
        activeProfile := Stream;
      }
      profile := variants[activeProfile];
    }

    /** Refused for the quiet profile; otherwise the classifier starts from the baseline's class. */
    method EnableMosaic() returns (enabled: bool)
      requires Valid()
      modifies this`mosaicEnabled, this`mosaic, this`activeProfile, this`profile
      ensures Valid() && enabled == !baseline.Quiet?
      ensures enabled ==> mosaicEnabled
      ensures !enabled || old(mosaicEnabled) ==> mosaic == old(mosaic) && profile == old(profile)
      ensures enabled && !old(mosaicEnabled) ==>
                mosaic == old(mosaic).(class' := if baseline.Interactive? then RealtimeClass else WebClass)
    {
      if baseline.Quiet? {
        return false;
      }
      if mosaicEnabled {
        return true;
      }
      mosaicEnabled := true;
      mosaic := mosaic.(class' := if baseline.Interactive? then RealtimeClass else WebClass);
      SetMosaicClass();
      enabled := true;
    }
  }
}
