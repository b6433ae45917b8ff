/**
  The fixed-point value model of the 2D local map.

  A cell stores a 15-bit code: 0 means "unknown" and 1..32767 encode a
  probability (or a correspondence cost, 1 - probability) linearly between a
  lower and an upper bound.  Bit 15 is the update marker, set on cells that
  were already updated during the current insertion.  Decoding uses a
  precomputed table of 2 * 32768 entries so that the marker is ignored; an
  update is a single lookup in a table of 32768 encoded-and-marked codes.
 */
module ProbabilityValues {

  /** An unsigned 16-bit integer (uint16). */
  type uint16 = x: int | 0 <= x < 0x1_0000

  /** Number of distinct 15-bit codes, 2^15. */
  const kValueCount: int := 32768
  /** Number of copies of the code range in a decode table. */
  const kRepetitionCount: int := 2
  /** The update marker, 1 << 15. */
  const kUpdateMarker: int := 32768
  const kUnknownProbabilityValue: uint16 := 0
  const kUnknownCorrespondenceValue: uint16 := 0
  const kMinProbability: real := 0.1
  const kMaxProbability: real := 1.0 - kMinProbability
  const kMinCorrespondenceCost: real := 1.0 - kMaxProbability
  const kMaxCorrespondenceCost: real := 1.0 - kMinProbability

  /** Linear decoding of one code: 0 (the unknown code) -> unknownResult,
      1..32767 -> [lowerBound, upperBound]. */
  function SlowValueToBoundedFloat(value: uint16, unknownValue: uint16, unknownResult: real,
                                   lowerBound: real, upperBound: real): (r: real)
    requires value < kValueCount
    ensures value == unknownValue ==> r == unknownResult
    ensures value != unknownValue && 1 <= value && lowerBound <= upperBound ==>
              lowerBound <= r <= upperBound
  {
    if value == unknownValue then unknownResult
    else
      var scale := (upperBound - lowerBound) / (kValueCount as real - 2.0);
      var r := value as real * scale + (lowerBound - scale);
      assert 1 <= value && lowerBound <= upperBound ==> lowerBound <= r <= upperBound by {
        if 1 <= value && lowerBound <= upperBound {
          LinearCodeInBounds(value, lowerBound, upperBound);
        }
      }
      r
  }

  /** The linear part maps 1..32767 into [lowerBound, upperBound]. */
  lemma LinearCodeInBounds(value: int, lowerBound: real, upperBound: real)
    requires 1 <= value < kValueCount && lowerBound <= upperBound
    ensures var scale := (upperBound - lowerBound) / (kValueCount as real - 2.0);
            lowerBound <= value as real * scale + (lowerBound - scale) <= upperBound
  {
    var scale := (upperBound - lowerBound) / (kValueCount as real - 2.0);
    assert scale >= 0.0;
    var steps := (value - 1) as real;
    assert 0.0 <= steps <= kValueCount as real - 2.0;
    assert value as real * scale + (lowerBound - scale) == lowerBound + steps * scale;
    ProductNonNegative(steps, scale);
    ProductNonNegative(kValueCount as real - 2.0 - steps, scale);
    assert (kValueCount as real - 2.0) * scale == upperBound - lowerBound;
  }

  lemma ProductNonNegative(a: real, b: real)
    requires 0.0 <= a && 0.0 <= b
    ensures 0.0 <= a * b
  {
  }

  /** Code 1 decodes to the lower bound and code 32767 to the upper bound. */
  lemma DecodeEndpoints(unknownValue: uint16, unknownResult: real, lowerBound: real, upperBound: real)
    requires unknownValue != 1 && unknownValue != kValueCount - 1
    ensures SlowValueToBoundedFloat(1, unknownValue, unknownResult, lowerBound, upperBound) == lowerBound
    ensures SlowValueToBoundedFloat(kValueCount - 1, unknownValue, unknownResult, lowerBound, upperBound)
            == upperBound
  {
  }

  /** Decoding is non-decreasing over the known codes when lowerBound <= upperBound. */
  lemma DecodeMonotonic(v: uint16, w: uint16, unknownValue: uint16, unknownResult: real,
                        lowerBound: real, upperBound: real)
    requires v <= w < kValueCount && v != unknownValue && w != unknownValue
    requires lowerBound <= upperBound
    ensures SlowValueToBoundedFloat(v, unknownValue, unknownResult, lowerBound, upperBound)
            <= SlowValueToBoundedFloat(w, unknownValue, unknownResult, lowerBound, upperBound)
  {
    var scale := (upperBound - lowerBound) / (kValueCount as real - 2.0);
    assert (w - v) as real * scale >= 0.0;
    assert w as real * scale == v as real * scale + (w - v) as real * scale;
  }

  /** A decode table: the 32768 decoded codes, repeated twice. */
  ghost predicate IsBoundedFloatTable(table: seq<real>, unknownValue: uint16, unknownResult: real,
                                      lowerBound: real, upperBound: real)
  {
    && |table| == kRepetitionCount * kValueCount
    && forall i :: 0 <= i < |table| ==>
         table[i] == SlowValueToBoundedFloat(i % kValueCount, unknownValue, unknownResult, lowerBound, upperBound)
  }

  /** Builds a decode table: for each of the two repetitions, one entry per code. */
  method PrecomputeValueToBoundedFloat(unknownValue: uint16, unknownResult: real,
                                       lowerBound: real, upperBound: real) returns (result: seq<real>)
    ensures IsBoundedFloatTable(result, unknownValue, unknownResult, lowerBound, upperBound)
  {
    result := [];
    var repeat := 0;
    while repeat != kRepetitionCount
      invariant 0 <= repeat <= kRepetitionCount
      invariant |result| == repeat * kValueCount
      invariant forall i :: 0 <= i < |result| ==>
                  result[i] == SlowValueToBoundedFloat(i % kValueCount, unknownValue, unknownResult,
                                                       lowerBound, upperBound)
    {
      var value := 0;
      while value != kValueCount
        invariant 0 <= value <= kValueCount
        invariant |result| == repeat * kValueCount + value
        invariant forall i :: 0 <= i < |result| ==>
                    result[i] == SlowValueToBoundedFloat(i % kValueCount, unknownValue, unknownResult,
                                                         lowerBound, upperBound)
      {
        assert (repeat * kValueCount + value) % kValueCount == value;
        result := result + [SlowValueToBoundedFloat(value, unknownValue, unknownResult, lowerBound, upperBound)];
        value := value + 1;
      }
      repeat := repeat + 1;
    }
  }

  /** A decode table ignores the update marker: a code and the same code with
      bit 15 set decode alike. */
  lemma {:induction false} DecodeIgnoresUpdateMarker(table: seq<real>, unknownValue: uint16, unknownResult: real,
                                                    lowerBound: real, upperBound: real, value: int)
    requires IsBoundedFloatTable(table, unknownValue, unknownResult, lowerBound, upperBound)
    requires 0 <= value < kValueCount
    ensures table[value] == table[value + kUpdateMarker]
    ensures table[value] == SlowValueToBoundedFloat(value, unknownValue, unknownResult, lowerBound, upperBound)
  {
    assert value % kValueCount == value;
    assert (value + kUpdateMarker) % kValueCount == value;
  }

  /** Decoded probability of a code, as held by the process-wide probability table. */
  function ValueToProbability(value: uint16): (p: real)
    requires value < kValueCount
    ensures kMinProbability <= p <= kMaxProbability
  {
    SlowValueToBoundedFloat(value, kUnknownProbabilityValue, kMinProbability, kMinProbability, kMaxProbability)
  }

  /** Decoded correspondence cost of a code, as held by the process-wide cost table. */
  function ValueToCorrespondenceCost(value: uint16): (c: real)
    requires value < kValueCount
    ensures kMinCorrespondenceCost <= c <= kMaxCorrespondenceCost
  {
    SlowValueToBoundedFloat(value, kUnknownCorrespondenceValue, kMaxCorrespondenceCost,
                            kMinCorrespondenceCost, kMaxCorrespondenceCost)
  }

  /** The probability decode table; the unknown code decodes to kMinProbability. */
  method PrecomputeValueToProbability() returns (table: seq<real>)
    ensures IsBoundedFloatTable(table, kUnknownProbabilityValue, kMinProbability, kMinProbability, kMaxProbability)
    ensures table[kUnknownProbabilityValue] == kMinProbability
    ensures table[kUnknownProbabilityValue + kUpdateMarker] == kMinProbability
  {
    table := PrecomputeValueToBoundedFloat(kUnknownProbabilityValue, kMinProbability, kMinProbability, kMaxProbability);
    DecodeIgnoresUpdateMarker(table, kUnknownProbabilityValue, kMinProbability, kMinProbability, kMaxProbability, 0);
  }

  /** The correspondence-cost decode table; the unknown code decodes to kMaxCorrespondenceCost. */
  method PrecomputeValueToCorrespondenceCost() returns (table: seq<real>)
    ensures IsBoundedFloatTable(table, kUnknownCorrespondenceValue, kMaxCorrespondenceCost,
                                kMinCorrespondenceCost, kMaxCorrespondenceCost)
    ensures table[kUnknownCorrespondenceValue] == kMaxCorrespondenceCost
    ensures table[kUnknownCorrespondenceValue + kUpdateMarker] == kMaxCorrespondenceCost
  {
    table := PrecomputeValueToBoundedFloat(kUnknownCorrespondenceValue, kMaxCorrespondenceCost,
                                           kMinCorrespondenceCost, kMaxCorrespondenceCost);
    DecodeIgnoresUpdateMarker(table, kUnknownCorrespondenceValue, kMaxCorrespondenceCost,
                              kMinCorrespondenceCost, kMaxCorrespondenceCost, 0);
  }

  /** The float conversions whose definitions are not part of this model:
      Odds, ProbabilityFromOdds, ProbabilityToValue and CorrespondenceCostToValue. */
  datatype Conversions = Conversions(
    odds: real -> real,
    probabilityFromOdds: real -> real,
    probabilityToValue: real -> uint16,
    correspondenceCostToValue: real -> uint16)

  /** Hypothesis on an encoder: it never yields the unknown code nor sets the marker. */
  ghost predicate EncoderInRange(encode: real -> uint16)
  {
    forall x :: 1 <= encode(x) < kValueCount
  }

  function ProbabilityToCorrespondenceCost(probability: real): real
  {
    1.0 - probability
  }

  function CorrespondenceCostToProbability(correspondenceCost: real): real
  {
    1.0 - correspondenceCost
  }

  /** `value + kUpdateMarker` stored back into a uint16 (taken modulo 2^16). */
  function MarkUpdated(value: uint16): (r: uint16)
    ensures 1 <= value < kValueCount ==> kUpdateMarker < r && r - kUpdateMarker == value
  {
    (value + kUpdateMarker) % 0x1_0000
  }

  /** An update table: one marked code per current code, never the bare marker. */
  ghost predicate IsUpdateTable(table: seq<uint16>)
  {
    && |table| == kValueCount
    && forall i :: 0 <= i < |table| ==> kUpdateMarker < table[i]
  }

  /** The marked code of the probability obtained by applying `odds` to a
      cell whose current probability is `probability`. */
  function UpdatedProbabilityValue(conv: Conversions, odds: real, probability: real): (r: uint16)
    ensures EncoderInRange(conv.probabilityToValue) ==> kUpdateMarker < r
  {
    var posterior := conv.probabilityFromOdds(odds * conv.odds(probability));
    var value := conv.probabilityToValue(posterior);
    assert EncoderInRange(conv.probabilityToValue) ==> 1 <= value < kValueCount;
    MarkUpdated(value)
  }

  /** The marked code of an unknown cell after applying `odds`: the
      probability of `odds` alone. */
  function UnknownProbabilityUpdate(conv: Conversions, odds: real): (r: uint16)
    ensures EncoderInRange(conv.probabilityToValue) ==> kUpdateMarker < r
  {
    var posterior := conv.probabilityFromOdds(odds);
    var value := conv.probabilityToValue(posterior);
    assert EncoderInRange(conv.probabilityToValue) ==> 1 <= value < kValueCount;
    MarkUpdated(value)
  }

  /** The marked cost code obtained by applying `odds` to a cell whose current
      correspondence cost is `correspondenceCost`. */
  function UpdatedCorrespondenceCostValue(conv: Conversions, odds: real, correspondenceCost: real): (r: uint16)
    ensures EncoderInRange(conv.correspondenceCostToValue) ==> kUpdateMarker < r
  {
    MarkUpdated(conv.correspondenceCostToValue(ProbabilityToCorrespondenceCost(conv.probabilityFromOdds(
      odds * conv.odds(CorrespondenceCostToProbability(correspondenceCost))))))
  }

  /** The marked cost code of an unknown cell after applying `odds`. */
  function UnknownCorrespondenceCostUpdate(conv: Conversions, odds: real): (r: uint16)
    ensures EncoderInRange(conv.correspondenceCostToValue) ==> kUpdateMarker < r
  {
    MarkUpdated(conv.correspondenceCostToValue(ProbabilityToCorrespondenceCost(conv.probabilityFromOdds(odds))))
  }

  /** Update table for probability grids.  Entry 0 (unknown cell) depends on
      `odds` alone; entry c >= 1 is the Bayesian update of the probability
      decoded from code c.  Every entry carries the marker. */
  method ComputeLookupTableToApplyOdds(conv: Conversions, valueToProbability: seq<real>, odds: real)
    returns (result: seq<uint16>)
    requires IsBoundedFloatTable(valueToProbability, kUnknownProbabilityValue, kMinProbability,
                                 kMinProbability, kMaxProbability)
    ensures |result| == kValueCount
    ensures result[0] == UnknownProbabilityUpdate(conv, odds)
    ensures forall cell :: 1 <= cell < kValueCount ==>
              result[cell] == UpdatedProbabilityValue(conv, odds, ValueToProbability(cell))
    ensures EncoderInRange(conv.probabilityToValue) ==> IsUpdateTable(result)
  {
    result := [UnknownProbabilityUpdate(conv, odds)];
    var cell := 1;
    while cell != kValueCount
      invariant 1 <= cell <= kValueCount
      invariant |result| == cell
      invariant result[0] == UnknownProbabilityUpdate(conv, odds)
      invariant forall c :: 1 <= c < cell ==> result[c] == UpdatedProbabilityValue(conv, odds, ValueToProbability(c))
    {
      DecodeIgnoresUpdateMarker(valueToProbability, kUnknownProbabilityValue, kMinProbability,
                                kMinProbability, kMaxProbability, cell);
      result := result + [UpdatedProbabilityValue(conv, odds, valueToProbability[cell])];
      cell := cell + 1;
    }
  }

  /** Update table for correspondence-cost grids, built like the probability
      one through the complementary cost. */
  method ComputeLookupTableToApplyCorrespondenceCostOdds(conv: Conversions, valueToCorrespondenceCost: seq<real>,
                                                         odds: real)
    returns (result: seq<uint16>)
    requires IsBoundedFloatTable(valueToCorrespondenceCost, kUnknownCorrespondenceValue, kMaxCorrespondenceCost,
                                 kMinCorrespondenceCost, kMaxCorrespondenceCost)
    ensures |result| == kValueCount
    ensures result[0] == UnknownCorrespondenceCostUpdate(conv, odds)
    ensures forall cell :: 1 <= cell < kValueCount ==>
              result[cell] == UpdatedCorrespondenceCostValue(conv, odds, ValueToCorrespondenceCost(cell))
    ensures EncoderInRange(conv.correspondenceCostToValue) ==> IsUpdateTable(result)
  {
    result := [UnknownCorrespondenceCostUpdate(conv, odds)];
    var cell := 1;
    while cell != kValueCount
      invariant 1 <= cell <= kValueCount
      invariant |result| == cell
      invariant result[0] == UnknownCorrespondenceCostUpdate(conv, odds)
      invariant forall c :: 1 <= c < cell ==>
                  result[c] == UpdatedCorrespondenceCostValue(conv, odds, ValueToCorrespondenceCost(c))
    {
      DecodeIgnoresUpdateMarker(valueToCorrespondenceCost, kUnknownCorrespondenceValue, kMaxCorrespondenceCost,
                                kMinCorrespondenceCost, kMaxCorrespondenceCost, cell);
      result := result + [UpdatedCorrespondenceCostValue(conv, odds, valueToCorrespondenceCost[cell])];
      cell := cell + 1;
    }
  }
}
