/** The piecewise sRGB transfer function of IEC 61966-2-1 (as restated on the
    Wikipedia sRGB page), with the thresholds the source writes out: decoding
    switches at 0.04045, encoding at 0.04045 / 12.92. `pow` is Python's `**`. */
module Transfer {
  import opened Numerics
  import opened LinearAlgebra

  const DECODE_THRESHOLD: real := 0.04045
  const ENCODE_THRESHOLD: real := 0.04045 / 12.92

  /** Gamma-encoded channel to linear intensity. */
  function Decode(v: real, pow: (real, real) -> real): real
  {
    if v <= DECODE_THRESHOLD then v / 12.92 else pow((v + 0.055) / 1.055, 2.4)
  }

  /** Linear intensity to gamma-encoded channel. */
  function Encode(v: real, pow: (real, real) -> real): real
  {
    if v <= ENCODE_THRESHOLD then 12.92 * v else 1.055 * pow(v, 1.0 / 2.4) - 0.055
  }

  /** `Decode` on each channel. */
  function DecodeAll(v: Vec3, pow: (real, real) -> real): Vec3
  {
    Vec3(Decode(v.a, pow), Decode(v.b, pow), Decode(v.c, pow))
  }

  /** `Encode` on each channel. */
  function EncodeAll(v: Vec3, pow: (real, real) -> real): Vec3
  {
    Vec3(Encode(v.a, pow), Encode(v.b, pow), Encode(v.c, pow))
  }

  /** Decoding keeps a colour in the unit cube. */
  lemma DecodeAllWithinUnit(v: Vec3, pow: (real, real) -> real)
    requires PowerFacts(pow)
    requires v.InUnitCube()
    ensures DecodeAll(v, pow).InUnitCube()
  {
    DecodeWithinUnit(v.a, pow);
    DecodeWithinUnit(v.b, pow);
    DecodeWithinUnit(v.c, pow);
  }

  /** Black and white are fixed points of both directions. */
  lemma EndPoints(pow: (real, real) -> real)
    requires PowerFacts(pow)
    ensures Decode(0.0, pow) == 0.0 && Decode(1.0, pow) == 1.0
    ensures Encode(0.0, pow) == 0.0 && Encode(1.0, pow) == 1.0
  {
    assert (1.0 + 0.055) / 1.055 == 1.0;
    assert pow(1.0, 2.4) == 1.0;
    assert pow(1.0, 1.0 / 2.4) == 1.0;
  }

  /** Decoding keeps a channel in [0, 1]. */
  lemma DecodeWithinUnit(v: real, pow: (real, real) -> real)
    requires PowerFacts(pow)
    requires 0.0 <= v <= 1.0
    ensures 0.0 <= Decode(v, pow) <= 1.0
  {
    if DECODE_THRESHOLD < v {
      var b := (v + 0.055) / 1.055;
      assert 0.0 <= b <= 1.0;
      assert 0.0 <= pow(b, 2.4) <= 1.0;
    }
  }

  /** Encoding never exceeds 1 for a linear value of at most 1. */
  lemma EncodeAtMostOne(v: real, pow: (real, real) -> real)
    requires PowerFacts(pow)
    requires 0.0 <= v <= 1.0
    ensures Encode(v, pow) <= 1.0
  {
    if ENCODE_THRESHOLD < v {
      assert pow(v, 1.0 / 2.4) <= 1.0;
    }
  }

  /** Encoding never goes below 0: the power segment starts above 0.055 / 1.055,
      because the square root of the threshold already does. */
  lemma EncodeNonNegative(v: real, pow: (real, real) -> real)
    requires PowerFacts(pow) && RootFacts(pow) && MonotoneFacts(pow)
    requires 0.0 <= v
    ensures 0.0 <= Encode(v, pow)
  {
    if ENCODE_THRESHOLD < v {
      var k := 11.0 / 211.0;
      assert k == 0.055 / 1.055;
      var s := pow(ENCODE_THRESHOLD, 0.5);
      assert 0.0 <= s && s * s == ENCODE_THRESHOLD;
      assert k * k == 121.0 / 44521.0 <= s * s;
      SquareOrder(k, s);
      assert s <= pow(ENCODE_THRESHOLD, 1.0 / 2.4);
      assert pow(ENCODE_THRESHOLD, 1.0 / 2.4) <= pow(v, 1.0 / 2.4);
    }
  }

  /** On the linear segment the two directions undo each other exactly. */
  lemma LinearSegmentRoundTrip(v: real, pow: (real, real) -> real)
    ensures v <= ENCODE_THRESHOLD ==> Decode(Encode(v, pow), pow) == v
    ensures v <= DECODE_THRESHOLD ==> Encode(Decode(v, pow), pow) == v
  {
    if v <= ENCODE_THRESHOLD {
      assert 12.92 * v <= DECODE_THRESHOLD;
    }
    if v <= DECODE_THRESHOLD {
      assert v / 12.92 <= ENCODE_THRESHOLD;
    }
  }

  /** On the power segment decoding undoes encoding whenever `pow` inverts itself
      and the encoded value lands above the decoding threshold. */
  lemma PowerSegmentRoundTrip(v: real, pow: (real, real) -> real)
    requires ENCODE_THRESHOLD < v
    requires DECODE_THRESHOLD < Encode(v, pow)
    requires pow(pow(v, 1.0 / 2.4), 2.4) == v
    ensures Decode(Encode(v, pow), pow) == v
  {
    var p := pow(v, 1.0 / 2.4);
    assert Encode(v, pow) == 1.055 * p - 0.055;
    assert (1.055 * p - 0.055 + 0.055) / 1.055 == p;
  }
}
