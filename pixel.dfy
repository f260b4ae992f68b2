/** The 8-bit RGBA colour value (augs/graphics/pixel.cpp): construction, saturating add, equality. */
module Pixel {
  import opened Ints

  datatype Rgba = Rgba(r: uint8, g: uint8, b: uint8, a: uint8)

  const ZERO: Rgba := Rgba(0, 0, 0, 0)

  /** `std::min(255u, x + y)` on one channel. */
  function SaturatingChannelAdd(x: uint8, y: uint8): uint8 {
    if x + y <= 255 then x + y else 255
  }

  /** `operator+`: channel-wise saturating addition. */
  function Add(p: Rgba, q: Rgba): (s: Rgba) {
    Rgba(SaturatingChannelAdd(q.r, p.r), SaturatingChannelAdd(q.g, p.g),
         SaturatingChannelAdd(q.b, p.b), SaturatingChannelAdd(q.a, p.a))
  }

  predicate Equal(p: Rgba, q: Rgba) {
    p.r == q.r && p.g == q.g && p.b == q.b && p.a == q.a
  }

  predicate NotEqual(p: Rgba, q: Rgba) {
    !Equal(p, q)
  }

  /** Every channel of a sum is min(255, sum of the channels); it never falls below either operand. */
  lemma AddIsSaturating(p: Rgba, q: Rgba)
    ensures Add(p, q).r == Min(255, p.r + q.r) && Add(p, q).g == Min(255, p.g + q.g)
    ensures Add(p, q).b == Min(255, p.b + q.b) && Add(p, q).a == Min(255, p.a + q.a)
    ensures Add(p, q).r >= Max(p.r, q.r) && Add(p, q).g >= Max(p.g, q.g)
    ensures Add(p, q).b >= Max(p.b, q.b) && Add(p, q).a >= Max(p.a, q.a)
  {
  }

  /** `operator+` is commutative and has the all-zero colour as identity. */
  lemma AddCommutativeWithIdentity(p: Rgba, q: Rgba)
    ensures Add(p, q) == Add(q, p)
    ensures Add(p, ZERO) == p && Add(ZERO, p) == p
  {
  }

  /** `==` is value equality of the four channels; `!=` is its negation. */
  lemma EqualIsValueEquality(p: Rgba, q: Rgba)
    ensures Equal(p, q) <==> p == q
    ensures NotEqual(p, q) <==> p != q
  {
  }
}
