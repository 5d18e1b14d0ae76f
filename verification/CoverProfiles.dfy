/** Cover-traffic profiles: the fixed definitions and the families their variants are derived from. */
module CoverProfiles {
  import opened Common

  const MAX_WIRE_CELL: nat := 65_535
  const MICROSECOND: int := 1_000
  const MILLISECOND: int := 1_000_000
  const SECOND: int := 1_000_000_000
  const MAX_MOSAIC_DUMMY_DELAY: int := 250 * MILLISECOND

  datatype Profile = Quiet | Web | Interactive | Stream

  datatype Shape = Uniform | FrontLoaded | TailLoaded

  datatype Definition = Definition(
    maxRealDelay: int,
    maxPadding: nat,
    buckets: seq<nat>,
    dummySizes: seq<nat>,
    shape: Shape,
    lookahead: nat,
    gateNumerator: nat,
    gateDenominator: nat,
    minDummyDelay: int,
    maxDummyDelay: int)

  function Base(profile: Profile): (d: Definition) {
    match profile
    case Quiet => Definition(0, 0, [], [], Uniform, 1, 0, 1, 0, 0)
    case Web =>
      Definition(12 * MILLISECOND, 8192, [128, 512, 1200, 4096, 16_384, 32_768, 49_152], [96, 256, 512, 1200],
                 Uniform, 2, 1, 1, 0, 12 * MILLISECOND)
    case Interactive =>
      Definition(20 * MILLISECOND, 1024, [96, 160, 256, 512, 1024, 1200, 4096], [96, 160, 256],
                 Uniform, 2, 1, 1, 0, 20 * MILLISECOND)
    case Stream =>
      Definition(0, 256, [1200, 4096, 16_384, 32_768, 49_152], [], Uniform, 2, 0, 1, 0, 0)
  }

  datatype Family = Family(
    buckets: seq<seq<nat>>,
    dummies: seq<seq<nat>>,
    shapes: seq<Shape>,
    lookaheads: seq<nat>,
    gates: seq<(nat, nat)>,
    delays: seq<(int, int)>)

  const ALL_SHAPES: seq<Shape> := [Uniform, FrontLoaded, TailLoaded]

  /** The family of a profile with variants; the quiet profile has none. */
  function FamilyOf(profile: Profile): (f: Family)
    requires !profile.Quiet?
  {
    match profile
    case Web => Family(
      [[128, 512, 1200, 4096, 16_384, 32_768, 49_152],
       [96, 384, 768, 1200, 3072, 12_288, 24_576, 49_152],
       [160, 640, 1024, 1440, 8192, 16_384, 32_768, 57_344],
       [256, 1024, 1200, 2048, 6144, 24_576, 40_960, 61_440]],
      [[96, 256, 512, 1200], [128, 384, 768, 1200], [160, 512, 1024], [96, 320, 640, 1024]],
      ALL_SHAPES, [1, 2, 3], [(1, 4), (1, 3), (1, 2), (2, 3)],
      [(12 * MILLISECOND, 90 * MILLISECOND), (20 * MILLISECOND, 140 * MILLISECOND),
       (35 * MILLISECOND, 220 * MILLISECOND), (8 * MILLISECOND, 60 * MILLISECOND)])
    case Interactive => Family(
      [[96, 160, 256, 512, 1024, 1200, 4096],
       [80, 128, 224, 384, 768, 1200, 2048, 4096],
       [112, 192, 320, 640, 960, 1400, 3072],
       [128, 256, 384, 768, 1200, 2048, 4096]],
      [[96, 160, 256], [80, 128, 224], [112, 192, 320], [128, 256, 384]],
      ALL_SHAPES, [1, 2, 3], [(1, 3), (1, 2), (2, 3), (3, 4)],
      [(8 * MILLISECOND, 50 * MILLISECOND), (12 * MILLISECOND, 75 * MILLISECOND),
       (20 * MILLISECOND, 110 * MILLISECOND), (5 * MILLISECOND, 40 * MILLISECOND)])
    case Stream => Family(
      [[1200, 4096, 16_384, 32_768, 49_152],
       [1200, 8192, 24_576, 49_152, 61_440],
       [1400, 4096, 12_288, 32_768, 57_344],
       [1024, 6144, 16_384, 40_960, 61_440]],
      [[]], [Uniform], [1, 2, 3], [(0, 1)], [(0, 0)])
  }

  ghost predicate Increasing(sizes: seq<nat>) {
    && (forall i :: 0 <= i < |sizes| ==> 0 < sizes[i] <= MAX_WIRE_CELL)
    && (forall i, j :: 0 <= i < j < |sizes| ==> sizes[i] < sizes[j])
  }

  /** `validIncreasingSizes`: one pass that compares each size with the one before. */
  method ValidIncreasingSizes(sizes: seq<int>) returns (valid: bool)
    ensures valid <==>
              && (forall i :: 0 <= i < |sizes| ==> 0 < sizes[i] <= MAX_WIRE_CELL)
              && (forall i, j :: 0 <= i < j < |sizes| ==> sizes[i] < sizes[j])
  {
    var previous := 0;
    for k := 0 to |sizes|
      invariant previous == if k == 0 then 0 else sizes[k - 1]
      invariant forall i :: 0 <= i < k ==> 0 < sizes[i] <= MAX_WIRE_CELL
      invariant forall i, j :: 0 <= i < j < k ==> sizes[i] < sizes[j]
    {
      if sizes[k] <= previous || sizes[k] > MAX_WIRE_CELL {
        return false;
      }
      previous := sizes[k];
    }
    valid := true;
  }

  /** What the engine relies on in a definition it plays. */
  ghost predicate Playable(d: Definition) {
    && Increasing(d.buckets) && Increasing(d.dummySizes)
    && 0 <= d.maxRealDelay <= 20 * MILLISECOND
    && 1 <= d.lookahead <= 3
    && d.gateNumerator <= d.gateDenominator && 0 < d.gateDenominator < 256
    && 0 <= d.minDummyDelay <= d.maxDummyDelay <= MAX_MOSAIC_DUMMY_DELAY
  }

  /** `validateDerivedProfile`. */
  ghost predicate ValidDerived(profile: Profile, variant: nat, d: Definition) {
    && variant != 0 && d.maxRealDelay <= Base(profile).maxRealDelay && d.maxPadding <= Base(profile).maxPadding
    && Playable(d)
    && (profile.Quiet? || profile.Stream? ==>
          d.dummySizes == [] && d.gateNumerator == 0 && d.maxRealDelay == 0)
  }

  /** `deriveProfile`: every choice is one byte of keyed material, reduced to the table size. */
  function Derive(profile: Profile, material: seq<byte>): (d: Definition)
    requires !profile.Quiet? && |material| == 32
  {
    var f := FamilyOf(profile);
    var gate := f.gates[material[5] as int % |f.gates|];
    var delay := f.delays[material[6] as int % |f.delays|];
    Base(profile).(
      buckets := f.buckets[material[1] as int % |f.buckets|],
      dummySizes := f.dummies[material[2] as int % |f.dummies|],
      shape := f.shapes[material[3] as int % |f.shapes|],
      lookahead := f.lookaheads[material[4] as int % |f.lookaheads|],
      gateNumerator := gate.0, gateDenominator := gate.1,
      minDummyDelay := delay.0, maxDummyDelay := delay.1)
  }

  function Variant(material: seq<byte>): (v: nat)
    requires |material| == 32
  {
    material[0] as int % 64 + 1
  }

  /** Each size is larger than the one before: all that has to be looked at in a table. */
  predicate Rising(sizes: seq<nat>, above: nat) {
    sizes == [] || (above < sizes[0] <= MAX_WIRE_CELL && Rising(sizes[1..], sizes[0]))
  }

  lemma {:induction false} RisingIncreases(sizes: seq<nat>, above: nat)
    requires Rising(sizes, above)
    ensures Increasing(sizes) && forall i :: 0 <= i < |sizes| ==> above < sizes[i]
    decreases |sizes|
  {
    if sizes != [] {
      RisingIncreases(sizes[1..], sizes[0]);
      assert forall i :: 1 <= i < |sizes| ==> sizes[i] == sizes[1..][i - 1];
    }
  }

  lemma WebBucketsRise(i: nat)
    requires i < |FamilyOf(Web).buckets|
    ensures Rising(FamilyOf(Web).buckets[i], 0)
  {
    assert i == 0 || i == 1 || i == 2 || i == 3;
  }

  lemma InteractiveBucketsRise(i: nat)
    requires i < |FamilyOf(Interactive).buckets|
    ensures Rising(FamilyOf(Interactive).buckets[i], 0)
  {
    assert i == 0 || i == 1 || i == 2 || i == 3;
  }

  lemma StreamBucketsRise(i: nat)
    requires i < |FamilyOf(Stream).buckets|
    ensures Rising(FamilyOf(Stream).buckets[i], 0)
  {
    assert i == 0 || i == 1 || i == 2 || i == 3;
  }

  /** Increasing sizes below a bound are few. */
  lemma {:induction false} IncreasingIsShort(sizes: seq<nat>)
    requires Increasing(sizes)
    ensures |sizes| <= MAX_WIRE_CELL && (sizes != [] ==> |sizes| <= sizes[|sizes| - 1])
    decreases |sizes|
  {
    if sizes != [] {
      var n := |sizes|;
      IncreasingIsShort(sizes[..n - 1]);
      assert n > 1 ==> n - 1 <= sizes[n - 2] < sizes[n - 1];
      assert sizes[n - 1] <= MAX_WIRE_CELL;
    }
  }

  lemma BucketsIncrease(profile: Profile, i: nat)
    requires !profile.Quiet? && i < |FamilyOf(profile).buckets|
    ensures Increasing(FamilyOf(profile).buckets[i])
  {
    match profile {
      case Web => WebBucketsRise(i);
      case Interactive => InteractiveBucketsRise(i);
      case Stream => StreamBucketsRise(i);
    }
    RisingIncreases(FamilyOf(profile).buckets[i], 0);
  }

  lemma DummiesIncrease(profile: Profile, i: nat)
    requires !profile.Quiet? && i < |FamilyOf(profile).dummies|
    ensures Increasing(FamilyOf(profile).dummies[i])
  {
    assert i == 0 || i == 1 || i == 2 || i == 3;
    RisingIncreases(FamilyOf(profile).dummies[i], 0);
  }

  lemma GatesAndDelaysFit(profile: Profile, i: nat)
    requires !profile.Quiet?
    ensures i < |FamilyOf(profile).gates| ==>
              var g := FamilyOf(profile).gates[i]; 0 < g.1 < 256 && g.0 <= g.1 && (profile.Stream? ==> g.0 == 0)
    ensures i < |FamilyOf(profile).delays| ==>
              var d := FamilyOf(profile).delays[i]; 0 <= d.0 <= d.1 <= MAX_MOSAIC_DUMMY_DELAY
  {
    assert i < 4 ==> i == 0 || i == 1 || i == 2 || i == 3;
  }

  /** Whatever the key material, derivation succeeds: every variant passes its validation. */
  lemma EveryVariantIsValid(profile: Profile, material: seq<byte>)
    requires !profile.Quiet? && |material| == 32
    ensures ValidDerived(profile, Variant(material), Derive(profile, material))
  {
    var f := FamilyOf(profile);
    BucketsIncrease(profile, material[1] as int % |f.buckets|);
    DummiesIncrease(profile, material[2] as int % |f.dummies|);
    GatesAndDelaysFit(profile, material[5] as int % |f.gates|);
    GatesAndDelaysFit(profile, material[6] as int % |f.delays|);
    assert f.lookaheads == [1, 2, 3];
  }

  lemma BaseIsPlayable(profile: Profile)
    ensures Playable(Base(profile))
  {
    RisingIncreases(Base(profile).buckets, 0);
    RisingIncreases(Base(profile).dummySizes, 0);
  }
}
