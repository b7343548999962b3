/**
 The mu-law codec of the phone bridge: section 3.2 of ITU-T G.711, on samples scaled to 16 bits.
 Bytes of linear audio are little-endian signed 16-bit samples.
 */
module MuLaw {
  import opened Utf8

  const BIAS := 0x84
  const CLIP := 32635

  function Pow2(e: nat): (p: nat)
    requires e <= 7
    ensures p >= 1
  {
    if e == 0 then 1 else 2 * Pow2(e - 1)
  }

  // ------------------------------------------------------- one sample

  function DecodeByte(raw: Byte): int {
    var value := 255 - raw;
    var exponent := value / 16 % 8;
    var mantissa := value % 16;
    var sample := (mantissa * 8 + BIAS) * Pow2(exponent) - BIAS;
    if value >= 128 then -sample else sample
  }

  // The segment of a biased magnitude: 2^(e+7) <= biased < 2^(e+8).
  function Segment(biased: nat): (e: nat)
    requires 128 <= biased < 0x8000
    ensures e <= 7
    ensures 128 * Pow2(e) <= biased < 256 * Pow2(e)
  {
    if biased < 0x100 then 0
    else if biased < 0x200 then 1
    else if biased < 0x400 then 2
    else if biased < 0x800 then 3
    else if biased < 0x1000 then 4
    else if biased < 0x2000 then 5
    else if biased < 0x4000 then 6
    else 7
  }

  function Magnitude(sample: int): (m: nat)
    ensures m <= CLIP
  {
    var a := if sample < 0 then -sample else sample;
    if a > CLIP then CLIP else a
  }

  // The magnitude code: segment and the four bits below its leading bit.
  function Code(magnitude: nat): (c: nat)
    requires magnitude <= CLIP
    ensures c < 128
  {
    var e := Segment(magnitude + BIAS);
    e * 16 + (magnitude + BIAS) / Pow2(e) / 8 % 16
  }

  function EncodeSample(sample: int): Byte {
    255 - ((if sample < 0 then 128 else 0) + Code(Magnitude(sample)))
  }

  // The encoder looks for the highest set bit with a mask that moves down.
  method PcmToMulawByte(input: int) returns (code: Byte)
    ensures code == EncodeSample(input)
  {
    var sign := 0;
    var sample := input;
    if sample < 0 {
      sign := 128;
      sample := -sample;
    }
    if sample > CLIP {
      sample := CLIP;
    }
    sample := sample + BIAS;
    var exponent := 7;
    var mask := 0x4000;
    while exponent > 0 && sample / mask % 2 == 0
      invariant 0 <= exponent <= 7 && mask == 128 * Pow2(exponent)
      invariant sample < 2 * mask
    {
      BitClear(sample, mask);
      exponent := exponent - 1;
      mask := mask / 2;
    }
    if exponent > 0 {
      BitSet(sample, mask);
    }
    SegmentUnique(sample, exponent);
    var mantissa := sample / Pow2(exponent) / 8 % 16;
    code := 255 - (sign + exponent * 16 + mantissa);
  }

  lemma {:induction false} BitClear(sample: nat, mask: nat)
    requires mask > 0 && sample < 2 * mask && sample / mask % 2 == 0
    ensures sample < mask
  {}

  lemma {:induction false} BitSet(sample: nat, mask: nat)
    requires mask > 0 && sample < 2 * mask && sample / mask % 2 != 0
    ensures sample >= mask
  {}

  lemma {:induction false} SegmentUnique(biased: nat, e: nat)
    requires 128 <= biased < 0x8000 && e <= 7
    requires 128 * Pow2(e) <= biased < 256 * Pow2(e)
    ensures e == Segment(biased)
  {
    Powers();
  }

  lemma {:induction false} Powers()
    ensures Pow2(0) == 1 && Pow2(1) == 2 && Pow2(2) == 4 && Pow2(3) == 8
    ensures Pow2(4) == 16 && Pow2(5) == 32 && Pow2(6) == 64 && Pow2(7) == 128
  {}

  // ------------------------------------------------------- what a sample becomes

  function Clamp(sample: int): int {
    if sample < -CLIP then -CLIP else if sample > CLIP then CLIP else sample
  }

  function Quantised(sample: int): int {
    DecodeByte(EncodeSample(sample))
  }

  function SegmentOf(sample: int): nat {
    Segment(Magnitude(sample) + BIAS)
  }

  // The reconstruction level of a magnitude code.
  function LevelOfCode(c: nat): int
    requires c < 128
  {
    (c % 16 * 8 + BIAS) * Pow2(c / 16) - BIAS
  }

  function Level(magnitude: nat): int
    requires magnitude <= CLIP
  {
    LevelOfCode(Code(magnitude))
  }

  lemma {:induction false} CodeOf(sign: nat, c: nat)
    requires (sign == 0 || sign == 128) && c < 128
    ensures (sign + c) % 128 == c
  {}

  lemma {:induction false} QuantisedIsLevel(sample: int)
    ensures Quantised(sample) == if sample < 0 then -Level(Magnitude(sample)) else Level(Magnitude(sample))
  {
    var c := Code(Magnitude(sample));
    SignAndCode(EncodeSample(sample));
    CodeOf(if sample < 0 then 128 else 0, c);
  }

  // With p = 2^e, the step is 8p and the level is the middle of the step that holds the magnitude.
  lemma {:induction false} StepArithmetic(biased: nat, p: nat)
    requires p in {1, 2, 4, 8, 16, 32, 64, 128}
    requires 128 * p <= biased < 256 * p
    ensures 16 <= biased / p / 8 < 32
    ensures 8 * p * (biased / p / 8) <= biased < 8 * p * (biased / p / 8) + 8 * p
  {}

  lemma {:induction false} PowerIn(e: nat)
    requires e <= 7
    ensures Pow2(e) in {1, 2, 4, 8, 16, 32, 64, 128}
  {
    Powers();
  }

  lemma {:induction false} LevelIsMiddle(m: nat) returns (p: nat, q: nat)
    requires m <= CLIP
    ensures p == Pow2(Segment(m + BIAS)) && q == (m + BIAS) / p / 8
    ensures p in {1, 2, 4, 8, 16, 32, 64, 128} && 16 <= q < 32
    ensures 8 * p * q <= m + BIAS < 8 * p * q + 8 * p
    ensures Level(m) + BIAS == 8 * p * q + 4 * p
  {
    var e := Segment(m + BIAS);
    p := Pow2(e);
    q := (m + BIAS) / p / 8;
    PowerIn(e);
    StepArithmetic(m + BIAS, p);
    assert Code(m) == e * 16 + (q - 16);
    MiddleArithmetic(e, q, p);
  }

  lemma {:induction false} MiddleArithmetic(e: nat, q: nat, p: nat)
    requires 16 <= q < 32
    ensures (e * 16 + (q - 16)) / 16 == e && (e * 16 + (q - 16)) % 16 == q - 16
    ensures ((q - 16) * 8 + BIAS) * p == 8 * p * q + 4 * p
  {}

  lemma {:induction false} LevelInSegment(m: nat)
    requires m <= CLIP
    ensures var p := Pow2(Segment(m + BIAS));
            128 * p <= Level(m) + BIAS <= 252 * p
    ensures 0 <= Level(m) <= 32124
    ensures -4 * Pow2(Segment(m + BIAS)) <= m - Level(m) <= 4 * Pow2(Segment(m + BIAS))
  {
    var p, q := LevelIsMiddle(m);
  }

  /** The error is at most half a step: 2^(e+2) for a sample in segment e, clipped first. */
  lemma {:induction false} QuantisationError(sample: int)
    ensures -4 * Pow2(SegmentOf(sample)) <= Quantised(sample) - Clamp(sample) <= 4 * Pow2(SegmentOf(sample))
    ensures -32124 <= Quantised(sample) <= 32124
  {
    QuantisedIsLevel(sample);
    LevelInSegment(Magnitude(sample));
  }

  lemma {:induction false} QuantisedOdd(sample: int)
    ensures Quantised(-sample) == -Quantised(sample)
  {
    QuantisedIsLevel(sample);
    QuantisedIsLevel(-sample);
    if sample == 0 {
      SegmentUnique(BIAS, 0);
    }
  }

  lemma {:induction false} SegmentMonotone(a: nat, b: nat)
    requires 128 <= a <= b < 0x8000
    ensures Segment(a) <= Segment(b)
    ensures Segment(a) < Segment(b) ==> 2 * Pow2(Segment(a)) <= Pow2(Segment(b))
  {
    Powers();
  }

  lemma {:induction false} LevelMonotone(m: nat, n: nat)
    requires m <= n <= CLIP
    ensures Level(m) <= Level(n)
  {
    SegmentMonotone(m + BIAS, n + BIAS);
    if Segment(m + BIAS) == Segment(n + BIAS) {
      var p, q := LevelIsMiddle(m);
      var p', r := LevelIsMiddle(n);
      StepOrder(m + BIAS, n + BIAS, p);
      Scaled(p, q, r);
    } else {
      LevelInSegment(m);
      LevelInSegment(n);
    }
  }

  lemma {:induction false} Scaled(p: nat, q: nat, r: nat)
    requires q <= r
    ensures 8 * p * q <= 8 * p * r
  {}

  lemma {:induction false} StepOrder(a: nat, b: nat, p: nat)
    requires a <= b && p in {1, 2, 4, 8, 16, 32, 64, 128}
    ensures a / p / 8 <= b / p / 8
  {}

  /** Louder samples never come back quieter. */
  lemma {:induction false} QuantisedMonotone(s: int, t: int)
    requires s <= t
    ensures Quantised(s) <= Quantised(t)
  {
    QuantisedIsLevel(s);
    QuantisedIsLevel(t);
    LevelInSegment(Magnitude(s));
    LevelInSegment(Magnitude(t));
    if t < 0 {
      LevelMonotone(Magnitude(t), Magnitude(s));
    } else if s >= 0 {
      LevelMonotone(Magnitude(s), Magnitude(t));
    }
  }

  lemma {:induction false} LevelFixed(m: nat)
    requires m <= CLIP
    ensures 0 <= Level(m) <= CLIP && Level(Level(m)) == Level(m)
  {
    LevelInSegment(m);
    var p, q := LevelIsMiddle(m);
    var l := Level(m);
    SegmentUnique(l + BIAS, Segment(m + BIAS));
    var p', r := LevelIsMiddle(l);
    SameStep(l + BIAS, p, q, r);
  }

  lemma {:induction false} SameStep(x: int, p: nat, q: nat, r: nat)
    requires p in {1, 2, 4, 8, 16, 32, 64, 128}
    requires 8 * p * q <= x < 8 * p * q + 8 * p && 8 * p * r <= x < 8 * p * r + 8 * p
    ensures q == r
  {}

  /** A decoded sample is a fixed point: coding it again loses nothing more. */
  lemma {:induction false} QuantisedIdempotent(sample: int)
    ensures Quantised(Quantised(sample)) == Quantised(sample)
  {
    var m := Magnitude(sample);
    QuantisedIsLevel(sample);
    LevelFixed(m);
    QuantisedIsLevel(Quantised(sample));
    assert Magnitude(Quantised(sample)) == Level(m);
  }

  // ------------------------------------------------------- one byte

  lemma {:induction false} LevelOfCodeBounds(c: nat)
    requires c < 128
    ensures 0 <= LevelOfCode(c) <= 32124
    ensures LevelOfCode(c) == 0 <==> c == 0
    ensures Code(LevelOfCode(c)) == c
  {
    var e, k := c / 16, c % 16;
    var p := Pow2(e);
    PowerIn(e);
    Powers();
    var biased := (k * 8 + BIAS) * p;
    CodeArithmetic(k, p);
    SegmentUnique(biased, e);
    if e > 0 { assert biased >= 264; }
  }

  lemma {:induction false} CodeArithmetic(k: nat, p: nat)
    requires k < 16 && p in {1, 2, 4, 8, 16, 32, 64, 128}
    ensures var biased := (k * 8 + BIAS) * p;
            && 132 * p <= biased <= 252 * p
            && biased / p / 8 == k + 16
  {}

  lemma {:induction false} SignAndCode(raw: Byte)
    ensures var value := 255 - raw;
            DecodeByte(raw) == if value >= 128 then -LevelOfCode(value % 128) else LevelOfCode(value % 128)
  {
    ByteParts(255 - raw);
  }

  lemma {:induction false} ByteParts(value: nat)
    requires value < 256
    ensures value % 128 / 16 == value / 16 % 8 && value % 128 % 16 == value % 16
  {}

  /** Every byte survives decoding and encoding, except that the negative zero becomes the positive one. */
  lemma {:induction false} ByteRoundTrip(raw: Byte)
    ensures EncodeSample(DecodeByte(raw)) == if raw == 0x7F then 0xFF else raw
    ensures -32124 <= DecodeByte(raw) <= 32124
  {
    SignAndCode(raw);
    LevelOfCodeBounds((255 - raw) % 128);
    SignedLevel(255 - raw, DecodeByte(raw), LevelOfCode((255 - raw) % 128));
  }

  // A level that codes back, with either sign; a negative zero becomes a positive one.
  lemma {:induction false} SignedLevel(value: nat, sample: int, level: int)
    requires value < 256 && 0 <= level <= CLIP && Code(level) == value % 128 && (level == 0 <==> value % 128 == 0)
    requires sample == if value >= 128 then -level else level
    ensures EncodeSample(sample) == 255 - if value == 128 then 0 else value
  {
    assert Magnitude(sample) == level;
  }

  // ------------------------------------------------------- byte sequences

  type Sample = s: int | -0x8000 <= s < 0x8000

  function Pack(s: Sample): seq<Byte> {
    var word := if s < 0 then s + 0x10000 else s;
    [word % 256, word / 256]
  }

  function Unpack(low: Byte, high: Byte): Sample {
    var word := low + 256 * high;
    if word >= 0x8000 then word - 0x10000 else word
  }

  lemma {:induction false} PackUnpack(s: Sample, low: Byte, high: Byte)
    ensures Unpack(Pack(s)[0], Pack(s)[1]) == s
    ensures Pack(Unpack(low, high)) == [low, high]
  {}

  /** The low byte comes first: the two bytes are the digits in base 256 of the sample in two's complement. */
  lemma {:induction false} LittleEndian(s: Sample, low: Byte, high: Byte)
    ensures (Pack(s)[0] + 256 * Pack(s)[1] - s) % 0x10000 == 0
    ensures (low + 256 * high - Unpack(low, high)) % 0x10000 == 0
  {}

  function DecodeSample(raw: Byte): Sample {
    ByteRoundTrip(raw);
    DecodeByte(raw)
  }

  function PcmOf(payload: seq<Byte>): seq<Byte> {
    if payload == [] then [] else PcmOf(payload[..|payload| - 1]) + Pack(DecodeSample(payload[|payload| - 1]))
  }

  // The whole samples of a byte sequence, and their codes.
  function SamplesOf(pcm: seq<Byte>): seq<Sample> {
    if |pcm| < 2 then [] else [Unpack(pcm[0], pcm[1])] + SamplesOf(pcm[2..])
  }

  function CodesOf(samples: seq<Sample>): seq<Byte> {
    if samples == [] then [] else CodesOf(samples[..|samples| - 1]) + [EncodeSample(samples[|samples| - 1])]
  }

  function MulawOf(pcm: seq<Byte>): seq<Byte> {
    CodesOf(SamplesOf(pcm))
  }

  method MulawToPcm(payload: seq<Byte>) returns (frames: seq<Byte>)
    ensures frames == PcmOf(payload)
  {
    frames := [];
    for i := 0 to |payload|
      invariant frames == PcmOf(payload[..i])
    {
      assert payload[..i + 1][..i] == payload[..i];
      frames := frames + Pack(DecodeSample(payload[i]));
    }
    assert payload[..|payload|] == payload;
  }

  method PcmToMulaw(pcmBytes: seq<Byte>) returns (encoded: seq<Byte>)
    ensures encoded == MulawOf(pcmBytes)
  {
    var pcm := if |pcmBytes| % 2 != 0 then pcmBytes[..|pcmBytes| - 1] else pcmBytes;
    encoded := [];
    var offset := 0;
    while offset < |pcm|
      invariant offset <= |pcm| && offset % 2 == 0
      invariant encoded == MulawOf(pcm[..offset])
    {
      var code := NextCode(pcm, offset);
      encoded := encoded + [code];
      offset := offset + 2;
    }
    assert pcm[..offset] == pcm;
    OddByteDropped(pcmBytes);
  }

  // The code of the sample at an offset.
  method NextCode(pcm: seq<Byte>, offset: nat) returns (code: Byte)
    requires offset + 2 <= |pcm| && offset % 2 == 0
    ensures MulawOf(pcm[..offset + 2]) == MulawOf(pcm[..offset]) + [code]
  {
    code := PcmToMulawByte(Unpack(pcm[offset], pcm[offset + 1]));
    CodedStep(pcm, offset);
  }

  lemma {:induction false} SamplesSnoc(pcm: seq<Byte>, low: Byte, high: Byte)
    requires |pcm| % 2 == 0
    ensures SamplesOf(pcm + [low, high]) == SamplesOf(pcm) + [Unpack(low, high)]
  {
    if pcm == [] {
      assert pcm + [low, high] == [low, high];
      assert [low, high][2..] == [];
    } else {
      assert (pcm + [low, high])[2..] == pcm[2..] + [low, high];
      SamplesSnoc(pcm[2..], low, high);
    }
  }

  lemma {:induction false} CodesSnoc(samples: seq<Sample>, s: Sample)
    ensures CodesOf(samples + [s]) == CodesOf(samples) + [EncodeSample(s)]
  {
    assert (samples + [s])[..|samples|] == samples;
  }

  lemma {:induction false} CodedStep(pcm: seq<Byte>, offset: nat)
    requires offset + 2 <= |pcm| && offset % 2 == 0
    ensures MulawOf(pcm[..offset + 2]) == MulawOf(pcm[..offset]) + [EncodeSample(Unpack(pcm[offset], pcm[offset + 1]))]
  {
    assert pcm[..offset + 2] == pcm[..offset] + [pcm[offset], pcm[offset + 1]];
    SamplesSnoc(pcm[..offset], pcm[offset], pcm[offset + 1]);
    CodesSnoc(SamplesOf(pcm[..offset]), Unpack(pcm[offset], pcm[offset + 1]));
  }

  lemma {:induction false} OddByteDropped(pcm: seq<Byte>)
    ensures |pcm| % 2 != 0 ==> MulawOf(pcm) == MulawOf(pcm[..|pcm| - 1])
  {
    if |pcm| % 2 != 0 {
      SamplesDropped(pcm);
    }
  }

  lemma {:induction false} SamplesDropped(pcm: seq<Byte>)
    requires |pcm| % 2 != 0
    ensures SamplesOf(pcm) == SamplesOf(pcm[..|pcm| - 1])
  {
    if |pcm| >= 2 {
      SamplesDropped(pcm[2..]);
      assert pcm[2..][..|pcm| - 3] == pcm[..|pcm| - 1][2..];
    }
  }

  /** One code per whole sample: only an odd trailing byte is dropped. */
  lemma {:induction false} MulawLength(pcm: seq<Byte>)
    ensures |MulawOf(pcm)| == |pcm| / 2
  {
    SamplesLength(pcm);
    CodesLength(SamplesOf(pcm));
  }

  lemma {:induction false} SamplesLength(pcm: seq<Byte>)
    ensures |SamplesOf(pcm)| == |pcm| / 2
  {
    if |pcm| >= 2 {
      SamplesLength(pcm[2..]);
    }
  }

  lemma {:induction false} CodesLength(samples: seq<Sample>)
    ensures |CodesOf(samples)| == |samples|
  {
    if samples != [] {
      CodesLength(samples[..|samples| - 1]);
    }
  }

  lemma {:induction false} MulawOfAppended(pcm: seq<Byte>, s: Sample)
    requires |pcm| % 2 == 0
    ensures MulawOf(pcm + Pack(s)) == MulawOf(pcm) + [EncodeSample(s)]
  {
    PackUnpack(s, 0, 0);
    SamplesSnoc(pcm, Pack(s)[0], Pack(s)[1]);
    CodesSnoc(SamplesOf(pcm), s);
  }

  function PositiveZero(raw: Byte): Byte {
    if raw == 0x7F then 0xFF else raw
  }

  function PositiveZeros(payload: seq<Byte>): seq<Byte> {
    if payload == [] then [] else PositiveZeros(payload[..|payload| - 1]) + [PositiveZero(payload[|payload| - 1])]
  }

  lemma {:induction false} PositiveZerosAt(payload: seq<Byte>)
    ensures |PositiveZeros(payload)| == |payload|
    ensures forall i | 0 <= i < |payload| ::
              PositiveZeros(payload)[i] == if payload[i] == 0x7F then 0xFF else payload[i]
  {
    if payload != [] {
      PositiveZerosAt(payload[..|payload| - 1]);
    }
  }

  lemma {:induction false} PcmLength(payload: seq<Byte>)
    ensures |PcmOf(payload)| == 2 * |payload|
  {
    if payload != [] {
      PcmLength(payload[..|payload| - 1]);
    }
  }

  lemma {:induction false} PcmEven(payload: seq<Byte>)
    ensures |PcmOf(payload)| % 2 == 0
  {
    PcmLength(payload);
  }

  lemma {:induction false} RoundTripStep(payload: seq<Byte>, raw: Byte)
    ensures MulawOf(PcmOf(payload) + Pack(DecodeSample(raw))) == MulawOf(PcmOf(payload)) + [PositiveZero(raw)]
  {
    PcmEven(payload);
    MulawOfAppended(PcmOf(payload), DecodeSample(raw));
    SampleRoundTrip(raw);
  }

  lemma {:induction false} SampleRoundTrip(raw: Byte)
    ensures EncodeSample(DecodeSample(raw)) == PositiveZero(raw)
  {
    ByteRoundTrip(raw);
  }

  /** Decoding and encoding a payload gives it back, each 0x7F turned into 0xFF. */
  lemma {:induction false} PayloadRoundTrip(payload: seq<Byte>)
    ensures MulawOf(PcmOf(payload)) == PositiveZeros(payload)
  {
    if payload != [] {
      var n := |payload| - 1;
      PayloadRoundTrip(payload[..n]);
      RoundTripStep(payload[..n], payload[n]);
    }
  }
}
