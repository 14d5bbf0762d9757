/** `BackgroundAlphaTypeEvaluator.evaluate`: interpolates two packed ARGB
    colours channel by channel. The evaluator is the same code in both
    package generations. A Java `int` is represented by its 32-bit pattern;
    the float fraction is a real. */
module ArgbEvaluator {

  const INT_MIN: int := -0x8000_0000
  const INT_MAX: int := 0x7FFF_FFFF

  /** The 8-bit channel at bit offset `shift` (24 alpha, 16 red, 8 green,
      0 blue): `(c >> shift) & 0xff`. Java's `>>` is arithmetic, but the mask
      removes every copied sign bit, so a logical shift gives the same value. */
  function Channel(c: bv32, shift: bv32): bv8
    requires shift <= 24
  {
    ((c >> shift) & 0xFF) as bv8
  }

  /** Truncation toward zero, as a Java `(int)` cast does before saturating. */
  function Trunc(x: real): (r: int)
    ensures r as real <= x < r as real + 1.0 || r as real - 1.0 < x <= r as real
    ensures 0.0 <= x ==> 0 <= r && r as real <= x
    ensures x <= 0.0 ==> r <= 0 && x <= r as real
  {
    if x >= 0.0 then x.Floor else -((-x).Floor)
  }

  /** The Java cast `(int) x` of a float: truncation toward zero, saturated to
      the `int` range (a float here is never NaN). */
  function FloatToInt(x: real): (r: int)
    ensures INT_MIN <= r <= INT_MAX
    ensures INT_MIN as real <= x <= INT_MAX as real ==> r == Trunc(x)
  {
    var t := Trunc(x);
    if t < INT_MIN then INT_MIN else if t > INT_MAX then INT_MAX else t
  }

  /** Java `int` addition wraps modulo 2^32 into the signed range. */
  function Wrap32(v: int): (r: int)
    ensures INT_MIN <= r <= INT_MAX
    ensures INT_MIN <= v <= INT_MAX ==> r == v
  {
    (v - INT_MIN) % 0x1_0000_0000 + INT_MIN
  }

  /** The two's-complement bit pattern of a Java `int`. */
  function Bits(v: int): bv32
    requires INT_MIN <= v <= INT_MAX
  {
    (if v < 0 then v + 0x1_0000_0000 else v) as bv32
  }

  /** `(int)(fraction * delta)`: the interpolated offset of one channel,
      cast from the exact product of the two (Java rounds the product to a
      float first). */
  function Offset(fraction: real, delta: int): int
  {
    FloatToInt(fraction * delta as real)
  }

  /** One output channel before packing:
      `start + (int)(fraction * (end - start))`, with `int` arithmetic. */
  function Lane(fraction: real, start: int, end: int): int
  {
    Wrap32(start + Offset(fraction, end - start))
  }

  /** The lane of the channel at bit offset `shift`. */
  function LaneOf(fraction: real, startValue: bv32, endValue: bv32, shift: bv32): int
    requires shift <= 24
  {
    Lane(fraction, Channel(startValue, shift) as int, Channel(endValue, shift) as int)
  }

  /** The four channels shifted into place and or-ed together, as Java's
      `(a << 24) | (r << 16) | (g << 8) | b` on `int`. */
  function Pack(a: int, r: int, g: int, b: int): bv32
    requires INT_MIN <= a <= INT_MAX && INT_MIN <= r <= INT_MAX
    requires INT_MIN <= g <= INT_MAX && INT_MIN <= b <= INT_MAX
  {
    (Bits(a) << 24) | (Bits(r) << 16) | (Bits(g) << 8) | Bits(b)
  }

  /** `evaluate(fraction, startValue, endValue)`. */
  function Evaluate(fraction: real, startValue: bv32, endValue: bv32): bv32
  {
    Pack(LaneOf(fraction, startValue, endValue, 24), LaneOf(fraction, startValue, endValue, 16),
         LaneOf(fraction, startValue, endValue, 8), LaneOf(fraction, startValue, endValue, 0))
  }

  /** v lies between the two bounds, whichever order they come in. */
  predicate Between(v: int, a: int, b: int)
  {
    (a <= v <= b) || (b <= v <= a)
  }

  /** Four bytes side by side in one word. */
  function PackBytes(a: bv8, r: bv8, g: bv8, b: bv8): bv32
  {
    (a as bv32 << 24) | (r as bv32 << 16) | (g as bv32 << 8) | b as bv32
  }

  /** A non-negative `int` below 256 has the bit pattern of its byte. */
  lemma ByteBits(v: int)
    requires 0 <= v < 256
    ensures Bits(v) == (v as bv8) as bv32
    ensures (v as bv8) as int == v
  {
  }

  /** Packing four bytes and reading each channel back gives the bytes: no
      channel spills into its neighbour. */
  lemma PackChannels(a: bv8, r: bv8, g: bv8, b: bv8)
    ensures var p := PackBytes(a, r, g, b);
      Channel(p, 24) == a && Channel(p, 16) == r && Channel(p, 8) == g && Channel(p, 0) == b
  {
  }

  /** Unpacking a colour into its channels and packing them again gives the
      colour back. */
  lemma UnpackPack(c: bv32)
    ensures PackBytes(Channel(c, 24), Channel(c, 16), Channel(c, 8), Channel(c, 0)) == c
  {
  }

  /** Packing lanes that are bytes is packing their bit patterns. */
  lemma PackOfBytes(a: int, r: int, g: int, b: int)
    requires 0 <= a < 256 && 0 <= r < 256 && 0 <= g < 256 && 0 <= b < 256
    ensures Pack(a, r, g, b) == PackBytes(a as bv8, r as bv8, g as bv8, b as bv8)
  {
    ByteBits(a); ByteBits(r); ByteBits(g); ByteBits(b);
  }

  /** Scaling a difference `d` by a fraction in [0, 1] gives a product `p`
      between 0 and `d`. */
  lemma ScaleWithin(fraction: real, d: int, p: real)
    requires 0.0 <= fraction <= 1.0
    requires p == fraction * d as real
    ensures 0 <= d ==> 0.0 <= p <= d as real
    ensures d < 0 ==> d as real <= p <= 0.0
  {
    if d >= 0 {
      assert fraction * d as real <= 1.0 * d as real;
    } else {
      assert fraction * (-d) as real <= 1.0 * (-d) as real;
    }
  }

  /** Truncating a value between 0 and a small `d` stays between them, and
      the cast does not saturate. */
  lemma TruncWithin(p: real, d: int)
    requires -256 < d < 256
    requires 0 <= d ==> 0.0 <= p <= d as real
    requires d < 0 ==> d as real <= p <= 0.0
    ensures Between(Trunc(p), 0, d) && FloatToInt(p) == Trunc(p)
  {
  }

  /** For a fraction in [0, 1] the offset of a channel difference lies
      between 0 and that difference. */
  lemma OffsetWithin(fraction: real, d: int)
    requires 0.0 <= fraction <= 1.0
    requires -256 < d < 256
    ensures Between(Offset(fraction, d), 0, d)
  {
    var p := fraction * d as real;
    ScaleWithin(fraction, d, p);
    TruncWithin(p, d);
  }

  /** For a fraction in [0, 1] a lane is a byte between its two endpoints. */
  lemma LaneBetween(fraction: real, start: int, end: int)
    requires 0.0 <= fraction <= 1.0
    requires 0 <= start < 256 && 0 <= end < 256
    ensures 0 <= Lane(fraction, start, end) < 256
    ensures Between(Lane(fraction, start, end), start, end)
  {
    OffsetWithin(fraction, end - start);
  }

  /** For a fraction in [0, 1] the result is the four lanes packed side by
      side, each one a byte. */
  lemma PackEvaluated(fraction: real, startValue: bv32, endValue: bv32)
    requires 0.0 <= fraction <= 1.0
    ensures var a, r, g, b := LaneOf(fraction, startValue, endValue, 24), LaneOf(fraction, startValue, endValue, 16),
                              LaneOf(fraction, startValue, endValue, 8), LaneOf(fraction, startValue, endValue, 0);
      && 0 <= a < 256 && 0 <= r < 256 && 0 <= g < 256 && 0 <= b < 256
      && Evaluate(fraction, startValue, endValue) == PackBytes(a as bv8, r as bv8, g as bv8, b as bv8)
  {
    var a, r, g, b := LaneOf(fraction, startValue, endValue, 24), LaneOf(fraction, startValue, endValue, 16),
                      LaneOf(fraction, startValue, endValue, 8), LaneOf(fraction, startValue, endValue, 0);
    LaneBetween(fraction, Channel(startValue, 24) as int, Channel(endValue, 24) as int);
    LaneBetween(fraction, Channel(startValue, 16) as int, Channel(endValue, 16) as int);
    LaneBetween(fraction, Channel(startValue, 8) as int, Channel(endValue, 8) as int);
    LaneBetween(fraction, Channel(startValue, 0) as int, Channel(endValue, 0) as int);
    PackOfBytes(a, r, g, b);
  }

  /** A channel whose offset is its whole difference lands on the end
      channel; one whose offset is 0 stays on the start channel. */
  lemma LaneAtEnds(start: int, end: int)
    requires 0 <= start < 256 && 0 <= end < 256
    ensures Lane(0.0, start, end) == start
    ensures Lane(1.0, start, end) == end
  {
    assert 0.0 * (end - start) as real == 0.0;
    assert 1.0 * (end - start) as real == (end - start) as real;
    assert Trunc((end - start) as real) == end - start;
  }

  /** The lane of one channel at fraction 0 is the start channel. */
  lemma LaneOfAtZero(startValue: bv32, endValue: bv32, shift: bv32)
    requires shift <= 24
    ensures LaneOf(0.0, startValue, endValue, shift) == Channel(startValue, shift) as int
  {
    var s, e := Channel(startValue, shift) as int, Channel(endValue, shift) as int;
    assert LaneOf(0.0, startValue, endValue, shift) == Lane(0.0, s, e);
    LaneAtEnds(s, e);
  }

  /** The lane of one channel at fraction 1 is the end channel. */
  lemma LaneOfAtOne(startValue: bv32, endValue: bv32, shift: bv32)
    requires shift <= 24
    ensures LaneOf(1.0, startValue, endValue, shift) == Channel(endValue, shift) as int
  {
    var s, e := Channel(startValue, shift) as int, Channel(endValue, shift) as int;
    assert LaneOf(1.0, startValue, endValue, shift) == Lane(1.0, s, e);
    LaneAtEnds(s, e);
  }

  /** A byte read as an `int` and cast back is the same byte. */
  lemma ByteRoundTrip(x: bv8)
    ensures (x as int) as bv8 == x
  {
  }

  /** Packing the channels of a colour, read as `int`s, gives the colour. */
  lemma PackOfChannels(c: bv32)
    ensures Pack(Channel(c, 24) as int, Channel(c, 16) as int, Channel(c, 8) as int, Channel(c, 0) as int) == c
  {
    var a, r, g, b := Channel(c, 24), Channel(c, 16), Channel(c, 8), Channel(c, 0);
    ByteRoundTrip(a); ByteRoundTrip(r); ByteRoundTrip(g); ByteRoundTrip(b);
    PackOfBytes(a as int, r as int, g as int, b as int);
    UnpackPack(c);
  }

  /** At fraction 0 the evaluator returns the start colour exactly. */
  lemma EvaluateAtZero(startValue: bv32, endValue: bv32)
    ensures Evaluate(0.0, startValue, endValue) == startValue
  {
    LaneOfAtZero(startValue, endValue, 24);
    LaneOfAtZero(startValue, endValue, 16);
    LaneOfAtZero(startValue, endValue, 8);
    LaneOfAtZero(startValue, endValue, 0);
    PackOfChannels(startValue);
  }

  /** At fraction 1 the evaluator returns the end colour exactly. */
  lemma EvaluateAtOne(startValue: bv32, endValue: bv32)
    ensures Evaluate(1.0, startValue, endValue) == endValue
  {
    LaneOfAtOne(startValue, endValue, 24);
    LaneOfAtOne(startValue, endValue, 16);
    LaneOfAtOne(startValue, endValue, 8);
    LaneOfAtOne(startValue, endValue, 0);
    PackOfChannels(endValue);
  }

  /** For a fraction in [0, 1] every output channel is the lane of that
      channel alone (no carry reaches a neighbour) and lies between the start
      and end channels. */
  lemma EvaluateChannelsBetween(fraction: real, startValue: bv32, endValue: bv32, shift: bv32)
    requires 0.0 <= fraction <= 1.0
    requires shift == 0 || shift == 8 || shift == 16 || shift == 24
    ensures var r := Evaluate(fraction, startValue, endValue);
      && Channel(r, shift) as int == LaneOf(fraction, startValue, endValue, shift)
      && Between(Channel(r, shift) as int, Channel(startValue, shift) as int, Channel(endValue, shift) as int)
  {
    var a, r, g, b := LaneOf(fraction, startValue, endValue, 24), LaneOf(fraction, startValue, endValue, 16),
                      LaneOf(fraction, startValue, endValue, 8), LaneOf(fraction, startValue, endValue, 0);
    PackEvaluated(fraction, startValue, endValue);
    PackChannels(a as bv8, r as bv8, g as bv8, b as bv8);
    ByteBits(a); ByteBits(r); ByteBits(g); ByteBits(b);
    LaneBetween(fraction, Channel(startValue, shift) as int, Channel(endValue, shift) as int);
  }
}
