/**
 * The colour types `Color3` (r, g, b) and `Color4` (r, g, b, a), channels in floats that
 * are nominally in [0, 1]. The operators act channel by channel like the vector types,
 * except that every `Color4` operator with a scalar operand leaves alpha alone. A
 * compound operator such as `+=` assigns the binary result back.
 *
 * `Color` is raylib's 8-bit colour struct; the conversions to it clamp each channel to
 * [0, 1], scale by 255 and truncate.
 */
module Color {
  import opened Scalar
  import opened Vector

  /** `unsigned char` */
  type Byte = n: int | 0 <= n < 256

  /** `uint32_t` */
  type UInt32 = n: int | 0 <= n < 0x1_0000_0000

  /** raylib's `Color { unsigned char r, g, b, a; }` */
  datatype RaylibColor = RaylibColor(r: Byte, g: Byte, b: Byte, a: Byte)

  /** `u / 255.0f`: a byte-scaled integer as a channel. */
  function Unit(u: int): real
  {
    u as real / 255.0
  }

  /**
   * `static_cast<unsigned char>(std::clamp(x, 0.0f, 1.0f) * 255.f)`, and the same cast to
   * `uint32_t` in `ToUInt32`: the truncation of a non-negative value is its floor.
   */
  function Channel(x: real): (n: Byte)
    ensures x <= 0.0 ==> n == 0
    ensures x >= 1.0 ==> n == 255
    ensures 0.0 <= x <= 1.0 ==> Unit(n) <= x < Unit(n + 1)
  {
    Floor(Scalar.Clamp(x, 0.0, 1.0) * 255.0)
  }

  /** A channel written from a byte reads back as that byte. */
  lemma {:induction false} ChannelOfUnit(k: Byte)
    ensures Channel(Unit(k)) == k
  {
    var x := Unit(k);
    assert x * 255.0 == k as real;
    assert 0.0 <= x <= 1.0;
    assert Scalar.Clamp(x, 0.0, 1.0) == x;
  }

  datatype Color3 = Color3(r: real, g: real, b: real)
  {
    /** `Color3()`: every channel defaults to zero. */
    static const Default := Color3(0.0, 0.0, 0.0)

    /** `Color3(uint32_t r, uint32_t g, uint32_t b)`: each channel divided by 255. */
    static function FromUInt(r: UInt32, g: UInt32, b: UInt32): Color3
    {
      Color3(Unit(r), Unit(g), Unit(b))
    }

    /** `explicit Color3(float value)` */
    static function Splat(value: real): Color3 { Color3(value, value, value) }

    /** `Color3(const Color4&)`: drops alpha. */
    static function FromColor4(c: Color4): Color3 { Color3(c.r, c.g, c.b) }

    /** `explicit Color3(const Vec3&)` */
    static function FromVec3(v: Vec3): Color3 { Color3(v.x, v.y, v.z) }

    /** `Color3(const Color&)`: each byte divided by 255; raylib's alpha is dropped. */
    static function FromRaylib(c: RaylibColor): Color3
    {
      Color3(Unit(c.r), Unit(c.g), Unit(c.b))
    }

    /** `operator Color()`: clamped, scaled and truncated channels, alpha 255. */
    function ToRaylib(): (c: RaylibColor)
      ensures c.a == 255
      ensures 0.0 <= r <= 1.0 ==> Unit(c.r) <= r < Unit(c.r + 1)
      ensures 0.0 <= g <= 1.0 ==> Unit(c.g) <= g < Unit(c.g + 1)
      ensures 0.0 <= b <= 1.0 ==> Unit(c.b) <= b < Unit(c.b + 1)
      ensures r <= 0.0 ==> c.r == 0
      ensures r >= 1.0 ==> c.r == 255
    {
      RaylibColor(Channel(r), Channel(g), Channel(b), 255)
    }

    /** `operator[]`: the source asserts `index <= 2`. */
    function Get(i: nat): real
      requires i <= 2
    {
      if i == 0 then r else if i == 1 then g else b
    }

    /** Assignment through the reference `operator[]` returns. */
    function Set(i: nat, value: real): (c: Color3)
      requires i <= 2
      ensures c.Get(i) == value
      ensures forall j :: 0 <= j <= 2 && j != i ==> c.Get(j) == Get(j)
    {
      if i == 0 then this.(r := value) else if i == 1 then this.(g := value) else this.(b := value)
    }

    /** `this op c` for a colour right operand, and `this op= c`. */
    function Combine(op: Op, c: Color3): Color3
    {
      Color3(Apply(op, r, c.r), Apply(op, g, c.g), Apply(op, b, c.b))
    }

    /**
     * `this op= s` for a scalar: every channel combined with `s`. The binary `this op s`
     * is written in the source as `this op Color3(s)`; both forms agree.
     */
    function CombineScalar(op: Op, s: real): (c: Color3)
      ensures c == Combine(op, Splat(s))
    {
      Color3(Apply(op, r, s), Apply(op, g, s), Apply(op, b, s))
    }

    /** `s op c` for a scalar left operand, written in the source as `Color3(s) op c`. */
    static function ScalarCombine(op: Op, s: real, c: Color3): (d: Color3)
      ensures d == Splat(s).Combine(op, c)
    {
      Color3(Apply(op, s, c.r), Apply(op, s, c.g), Apply(op, s, c.b))
    }

    function Length(): real
    {
      Sqrt(r * r + g * g + b * b)
    }

    /** Divides by the length when it exceeds `1e-6`, otherwise black. */
    function Normalized(): (c: Color3)
      ensures Length() > Epsilon ==> c.CombineScalar(Mul, Length()) == this
      ensures Length() <= Epsilon ==> c == Splat(0.0)
    {
      var len := Length();
      if len > Epsilon then CombineScalar(Div, len) else Splat(0.0)
    }

    /** Each channel passed through `std::clamp(c, min, max)`. */
    function Clamp(min: real, max: real): (c: Color3)
      ensures min <= max ==> min <= c.r <= max && min <= c.g <= max && min <= c.b <= max
      ensures min <= r <= max && min <= g <= max && min <= b <= max ==> c == this
    {
      Color3(Scalar.Clamp(r, min, max), Scalar.Clamp(g, min, max), Scalar.Clamp(b, min, max))
    }

    /** `{r + (target.r - r) * amount, ...}` */
    function Lerp(target: Color3, amount: real): (c: Color3)
      ensures amount == 0.0 ==> c == this
      ensures amount == 1.0 ==> c == target
    {
      Color3(r + (target.r - r) * amount, g + (target.g - g) * amount, b + (target.b - b) * amount)
    }

    /** The largest channel. */
    function Max(): real
    {
      if r >= g && r >= b then r else if g >= b then g else b
    }

    /** The smallest channel. */
    function Min(): real
    {
      if r <= g && r <= b then r else if g <= b then g else b
    }

    /**
     * The colour of one 60-degree hue section from the value `v` and the three mixed
     * levels `p`, `q` and `t`. Sections 0 to 4 are the first five cases of the switch;
     * every other section takes its `default` branch.
     */
    static function Section(section: int, v: real, p: real, q: real, t: real): (c: Color3)
      ensures p <= q <= v && p <= t <= v ==> c.Max() == v && c.Min() == p
    {
      var c := (
        match section
        case 0 => Color3(v, t, p)
        case 1 => Color3(q, v, p)
        case 2 => Color3(p, v, t)
        case 3 => Color3(p, q, v)
        case 4 => Color3(t, p, v)
        case _ => Color3(v, p, q));
      Color3.Extremes(c, p, v);
      c
    }

    /** A colour whose channels lie in [lo, hi] and take both ends has those as extremes. */
    static lemma Extremes(c: Color3, lo: real, hi: real)
      ensures (lo <= c.r <= hi && lo <= c.g <= hi && lo <= c.b <= hi &&
               (c.r == hi || c.g == hi || c.b == hi) && (c.r == lo || c.g == lo || c.b == lo))
        ==> c.Max() == hi && c.Min() == lo
    {
    }

    /**
     * `Color3::HSV(float h, float s, float v)` as written: `s == 0` is grey, otherwise the
     * section is `floor(h * 6)` and `f` its fractional part. The value is the largest
     * channel and `v * (1 - s)` the smallest, whatever the hue.
     */
    static function HSV(h: real, s: real, v: real): (c: Color3)
      ensures s == 0.0 ==> c == Splat(v)
      ensures 0.0 <= s <= 1.0 && 0.0 <= v ==> c.Max() == v && c.Min() == Low(s, v)
    {
      if s == 0.0 then Splat(v)
      else
        var tempH := h * 6.0;
        var section := Floor(tempH);
        var f := tempH - section as real;
        SectionLevels(f, s, v);
        Section(section, v, Low(s, v), Falling(f, s, v), Rising(f, s, v))
    }

    /**
     * The corrected conversion: `HSV` with the hue section taken modulo 6, so that a full
     * turn `h == 1` is the same red as `h == 0`. The hue is periodic and, inside [0, 1),
     * the result is the one `HSV` computes. The overloads below keep `HSV` as written.
     */
    static function HSVWrapped(h: real, s: real, v: real): (c: Color3)
      ensures s == 0.0 ==> c == Splat(v)
      ensures 0.0 <= s <= 1.0 && 0.0 <= v ==> c.Max() == v && c.Min() == Low(s, v)
      ensures 0.0 <= h < 1.0 ==> c == HSV(h, s, v)
    {
      if s == 0.0 then Splat(v)
      else
        var tempH := h * 6.0;
        var section := Floor(tempH);
        var f := tempH - section as real;
        SectionLevels(f, s, v);
        Section(section % 6, v, Low(s, v), Falling(f, s, v), Rising(f, s, v))
    }

    /**
     * `Color3::HSV(uint32_t h, uint32_t s, uint32_t v)`: each argument divided by 255 and
     * handed to the float `HSV`, so `h == 255` meets the same `default` branch.
     */
    static function HSVFromUInt(h: UInt32, s: UInt32, v: UInt32): (c: Color3)
      ensures c == HSV(Unit(h), Unit(s), Unit(v))
      ensures s == 0 ==> c == Splat(Unit(v))
      ensures s <= 255 ==> c.Max() == Unit(v) && c.Min() == Low(Unit(s), Unit(v))
    {
      HSV(Unit(h), Unit(s), Unit(v))
    }
  }

  /** `p = v * (1 - s)`: the smallest channel of a saturated colour. */
  function Low(s: real, v: real): real { v * (1.0 - s) }

  /** `q = v * (1 - s * f)`: the level that falls across a hue section. */
  function Falling(f: real, s: real, v: real): real { v * (1.0 - s * f) }

  /** `t = v * (1 - s * (1 - f))`: the level that rises across a hue section. */
  function Rising(f: real, s: real, v: real): real { v * (1.0 - s * (1.0 - f)) }

  lemma NonNegativeProduct(x: real, y: real)
    ensures 0.0 <= x && 0.0 <= y ==> 0.0 <= x * y
  {
  }

  /** The two mixed levels of a hue section lie between the minimum `p` and the value. */
  lemma SectionLevels(f: real, s: real, v: real)
    ensures 0.0 <= f < 1.0 && 0.0 <= s <= 1.0 && 0.0 <= v ==>
      Low(s, v) <= Falling(f, s, v) <= v && Low(s, v) <= Rising(f, s, v) <= v
  {
    if 0.0 <= f < 1.0 && 0.0 <= s <= 1.0 && 0.0 <= v {
      var vs, rest := v * s, 1.0 - f;
      NonNegativeProduct(v, s);
      NonNegativeProduct(vs, f);
      NonNegativeProduct(vs, rest);
      assert Falling(f, s, v) - Low(s, v) == vs * rest;
      assert v - Falling(f, s, v) == vs * f;
      assert Rising(f, s, v) - Low(s, v) == vs * f;
      assert v - Rising(f, s, v) == vs * rest;
    }
  }

  /**
   * At `h == 1`, a full turn of hue, the section of `HSV` is 6, which
   * falls into the `default` branch with `f == 0`: the result is magenta `(v, p, v)`
   * where a full turn of hue should give the red `(v, p, p)` of `h == 0`.
   */
  lemma HSVFullTurnIsMagenta(s: real, v: real)
    requires s != 0.0
    ensures Color3.HSV(1.0, s, v) == Color3(v, Low(s, v), v)
    ensures Color3.HSV(0.0, s, v) == Color3(v, Low(s, v), Low(s, v))
    ensures v != 0.0 ==> Color3.HSV(1.0, s, v) != Color3.HSV(0.0, s, v)
  {
    assert Floor(6.0) == 6;
    assert Floor(0.0) == 0;
  }

  /** `HSV(255u, 255u, 255u)` is magenta, `HSV(0u, 255u, 255u)` red; so are the `HSVA` forms. */
  lemma HSVFullTurnExample()
    ensures Color3.HSVFromUInt(255, 255, 255) == Color3(1.0, 0.0, 1.0)
    ensures Color3.HSVFromUInt(0, 255, 255) == Color3(1.0, 0.0, 0.0)
    ensures Color4.HSVAFromUInt(255, 255, 255) == Color4(1.0, 0.0, 1.0, 1.0)
    ensures Color4.HSVA(1.0, 1.0, 1.0) == Color4(1.0, 0.0, 1.0, 1.0)
  {
    assert Unit(255) == 1.0 && Unit(0) == 0.0;
    HSVFullTurnIsMagenta(1.0, 1.0);
    assert Low(1.0, 1.0) == 0.0;
  }

  /** The corrected conversion: one full turn of hue changes nothing. */
  lemma {:induction false} HSVWrappedPeriodic(h: real, s: real, v: real)
    ensures Color3.HSVWrapped(h + 1.0, s, v) == Color3.HSVWrapped(h, s, v)
    ensures Color3.HSVWrapped(1.0, s, v) == Color3.HSVWrapped(0.0, s, v)
  {
    var n := Floor(h * 6.0);
    assert (h + 1.0) * 6.0 == h * 6.0 + 6.0;
    assert Floor((h + 1.0) * 6.0) == n + 6;
    assert (n + 6) % 6 == n % 6;
    assert Floor(6.0) == 6;
    assert Floor(0.0) == 0;
  }

  datatype Color4 = Color4(r: real, g: real, b: real, a: real)
  {
    /** `Color4()`: every channel, alpha included, defaults to zero. */
    static const Default := Color4(0.0, 0.0, 0.0, 0.0)

    static const White := Color4(1.0, 1.0, 1.0, 1.0)
    static const Black := Color4(0.0, 0.0, 0.0, 1.0)
    static const Transparent := Color4(0.0, 0.0, 0.0, 0.0)
    static const Red := Color4(1.0, 0.0, 0.0, 1.0)
    static const Green := Color4(0.0, 1.0, 0.0, 1.0)
    static const Blue := Color4(0.0, 0.0, 1.0, 1.0)
    static const Yellow := Color4(1.0, 1.0, 0.0, 1.0)
    static const Magenta := Color4(1.0, 0.0, 1.0, 1.0)
    static const Cyan := Color4(0.0, 1.0, 1.0, 1.0)
    static const Gray := Color4(0.5, 0.5, 0.5, 1.0)
    static const LightGray := Color4(0.75, 0.75, 0.75, 1.0)
    static const DarkGray := Color4(0.25, 0.25, 0.25, 1.0)
    static const Orange := Color4(1.0, 0.5, 0.0, 1.0)
    static const Purple := Color4(0.5, 0.0, 0.5, 1.0)
    static const Brown := Color4(0.6, 0.4, 0.2, 1.0)
    static const Pink := Color4(1.0, 0.75, 0.8, 1.0)
    static const Lime := Color4(0.75, 1.0, 0.0, 1.0)
    static const SkyBlue := Color4(0.53, 0.81, 0.92, 1.0)

    /** `Color4(float r, float g, float b, float a = 1.0f)` */
    static function Make(r: real, g: real, b: real, a: real := 1.0): Color4
    {
      Color4(r, g, b, a)
    }

    /** `Color4(uint32_t r, uint32_t g, uint32_t b, uint32_t a = 255u)`: divided by 255. */
    static function FromUInt(r: UInt32, g: UInt32, b: UInt32, a: UInt32 := 255): Color4
    {
      Color4(Unit(r), Unit(g), Unit(b), Unit(a))
    }

    /** `explicit Color4(float value)`: a grey with alpha 1. */
    static function Splat(value: real): Color4 { Color4(value, value, value, 1.0) }

    /** `explicit Color4(float value, float alpha)` */
    static function SplatAlpha(value: real, alpha: real): Color4
    {
      Color4(value, value, value, alpha)
    }

    /** `explicit Color4(const Color3&, float a = 1.0f)` */
    static function FromColor3(c: Color3, a: real := 1.0): Color4
    {
      Color4(c.r, c.g, c.b, a)
    }

    /** `explicit Color4(const Vec4&)` */
    static function FromVec4(v: Vec4): Color4 { Color4(v.x, v.y, v.z, v.w) }

    /** `Color4(const Color&)`: each byte divided by 255. */
    static function FromRaylib(c: RaylibColor): Color4
    {
      Color4(Unit(c.r), Unit(c.g), Unit(c.b), Unit(c.a))
    }

    /** `operator Color()`: each channel clamped, scaled and truncated. */
    function ToRaylib(): (c: RaylibColor)
      ensures 0.0 <= r <= 1.0 ==> Unit(c.r) <= r < Unit(c.r + 1)
      ensures 0.0 <= g <= 1.0 ==> Unit(c.g) <= g < Unit(c.g + 1)
      ensures 0.0 <= b <= 1.0 ==> Unit(c.b) <= b < Unit(c.b + 1)
      ensures 0.0 <= a <= 1.0 ==> Unit(c.a) <= a < Unit(c.a + 1)
      ensures a <= 0.0 ==> c.a == 0
      ensures a >= 1.0 ==> c.a == 255
      ensures Color3.FromColor4(this).ToRaylib() == c.(a := 255)
    {
      var rgb := Color3.FromColor4(this).ToRaylib();
      rgb.(a := Channel(a))
    }

    /** `operator[]`: the source asserts `index <= 3`. */
    function Get(i: nat): real
      requires i <= 3
    {
      if i == 0 then r else if i == 1 then g else if i == 2 then b else a
    }

    /** Assignment through the reference `operator[]` returns. */
    function Set(i: nat, value: real): (c: Color4)
      requires i <= 3
      ensures c.Get(i) == value
      ensures forall j :: 0 <= j <= 3 && j != i ==> c.Get(j) == Get(j)
    {
      if i == 0 then this.(r := value)
      else if i == 1 then this.(g := value)
      else if i == 2 then this.(b := value)
      else this.(a := value)
    }

    /** `this op c` and `this op= c` for a colour operand: all four channels, alpha too. */
    function Combine(op: Op, c: Color4): Color4
    {
      Color4(Apply(op, r, c.r), Apply(op, g, c.g), Apply(op, b, c.b), Apply(op, a, c.a))
    }

    /** `this op s` and `this op= s` for a scalar: r, g and b only; alpha is kept. */
    function CombineScalar(op: Op, s: real): Color4
    {
      Color4(Apply(op, r, s), Apply(op, g, s), Apply(op, b, s), a)
    }

    /** `s op c` for a scalar left operand: r, g and b only; the operand's alpha is kept. */
    static function ScalarCombine(op: Op, s: real, c: Color4): Color4
    {
      Color4(Apply(op, s, c.r), Apply(op, s, c.g), Apply(op, s, c.b), c.a)
    }

    /** The length of all four channels, alpha included. */
    function Length(): real
    {
      Sqrt(r * r + g * g + b * b + a * a)
    }

    /**
     * `*this / len` when the four-channel length exceeds `1e-6`, which divides r, g and
     * b but keeps alpha; otherwise `Color4(0.f)`, an opaque black.
     */
    function Normalized(): (c: Color4)
      ensures Length() > Epsilon ==> c.a == a && c.CombineScalar(Mul, Length()) == this
      ensures Length() <= Epsilon ==> c == Black
    {
      var len := Length();
      if len > Epsilon then CombineScalar(Div, len) else Splat(0.0)
    }

    /** Each channel, alpha included, passed through `std::clamp(c, min, max)`. */
    function Clamp(min: real, max: real): (c: Color4)
      ensures min <= max ==> min <= c.r <= max && min <= c.g <= max && min <= c.b <= max
      ensures min <= max ==> min <= c.a <= max
      ensures min <= r <= max && min <= g <= max && min <= b <= max && min <= a <= max ==> c == this
    {
      Color4(Scalar.Clamp(r, min, max), Scalar.Clamp(g, min, max), Scalar.Clamp(b, min, max),
             Scalar.Clamp(a, min, max))
    }

    /** `{r + (target.r - r) * amount, ...}` on all four channels. */
    function Lerp(target: Color4, amount: real): (c: Color4)
      ensures amount == 0.0 ==> c == this
      ensures amount == 1.0 ==> c == target
    {
      Color4(r + (target.r - r) * amount, g + (target.g - g) * amount,
             b + (target.b - b) * amount, a + (target.a - a) * amount)
    }

    /**
     * `R | (G << 8) | (B << 16) | (A << 24)`, each byte the clamped, scaled and truncated
     * channel: red is the lowest byte and alpha the highest.
     */
    function ToUInt32(): (u: bv32)
      ensures Byte0(u) == Channel(r) as bv8 && Byte1(u) == Channel(g) as bv8
      ensures Byte2(u) == Channel(b) as bv8 && Byte3(u) == Channel(a) as bv8
    {
      Pack(Channel(r) as bv8, Channel(g) as bv8, Channel(b) as bv8, Channel(a) as bv8)
    }

    /** `Grey(float value, float alpha = 1.0f)` */
    static function Grey(value: real, alpha: real := 1.0): Color4
    {
      Color4(value, value, value, alpha)
    }

    /** `HSVA(float h, float s, float v, float a = 1.0f)`: `Color3::HSV` with the given alpha. */
    static function HSVA(h: real, s: real, v: real, a: real := 1.0): (c: Color4)
      ensures c.a == a && Color3.FromColor4(c) == Color3.HSV(h, s, v)
      ensures 0.0 <= s <= 1.0 && 0.0 <= v ==>
        Color3.FromColor4(c).Max() == v && Color3.FromColor4(c).Min() == Low(s, v)
    {
      FromColor3(Color3.HSV(h, s, v), a)
    }

    /** `HSVA(uint32_t h, uint32_t s, uint32_t v, uint32_t a = 255u)`: divided by 255. */
    static function HSVAFromUInt(h: UInt32, s: UInt32, v: UInt32, a: UInt32 := 255): (c: Color4)
      ensures c.a == Unit(a)
      ensures Color3.FromColor4(c) == Color3.HSVFromUInt(h, s, v)
    {
      HSVA(Unit(h), Unit(s), Unit(v), Unit(a))
    }

    /** A copy with alpha replaced. */
    function WithAlpha(alpha: real): (c: Color4)
      ensures c.a == alpha
      ensures Color3.FromColor4(c) == Color3.FromColor4(this)
    {
      Color4(r, g, b, alpha)
    }
  }

  /** Bits 0-7 of a word. */
  function Byte0(u: bv32): bv8 { (u & 0xFF) as bv8 }
  /** Bits 8-15 of a word. */
  function Byte1(u: bv32): bv8 { ((u >> 8) & 0xFF) as bv8 }
  /** Bits 16-23 of a word. */
  function Byte2(u: bv32): bv8 { ((u >> 16) & 0xFF) as bv8 }
  /** Bits 24-31 of a word. */
  function Byte3(u: bv32): bv8 { ((u >> 24) & 0xFF) as bv8 }

  /** Four bytes packed into a word, the first in the lowest byte. */
  function Pack(r: bv8, g: bv8, b: bv8, a: bv8): (u: bv32)
    ensures Byte0(u) == r && Byte1(u) == g && Byte2(u) == b && Byte3(u) == a
  {
    (r as bv32) | ((g as bv32) << 8) | ((b as bv32) << 16) | ((a as bv32) << 24)
  }

  /**
   * Every scalar operator on a `Color4`, compound or binary and with the scalar on either
   * side, keeps alpha and acts on r, g and b exactly as the `Color3` operator does.
   */
  lemma ScalarKeepsAlpha(c: Color4, op: Op, s: real)
    ensures c.CombineScalar(op, s).a == c.a
    ensures Color4.ScalarCombine(op, s, c).a == c.a
    ensures Color3.FromColor4(c.CombineScalar(op, s)) == Color3.FromColor4(c).CombineScalar(op, s)
    ensures Color3.FromColor4(Color4.ScalarCombine(op, s, c)) == Color3.ScalarCombine(op, s, Color3.FromColor4(c))
  {
  }

  /**
   * A default `Color4` is transparent, while the float, uint32, `Color3`, grey and HSV
   * constructors default alpha to opaque.
   */
  lemma AlphaDefaults(value: real, c: Color3, h: real, s: real, v: real, r: UInt32, g: UInt32, b: UInt32)
    ensures Color4.Default == Color4.Transparent && Color4.Default.a == 0.0
    ensures Color3.Default == Color3.Splat(0.0)
    ensures Color4.Make(value, value, value).a == 1.0
    ensures Color4.FromUInt(r, g, b).a == 1.0
    ensures Color4.Splat(value).a == 1.0
    ensures Color4.FromColor3(c).a == 1.0
    ensures Color4.Grey(value).a == 1.0
    ensures Color4.HSVA(h, s, v).a == 1.0
    ensures Color4.HSVAFromUInt(r, g, b).a == 1.0
  {
  }

  /** A colour converted from raylib's bytes converts back to the same bytes. */
  lemma RaylibRoundTrip(c: RaylibColor)
    ensures Color4.FromRaylib(c).ToRaylib() == c
    ensures Color3.FromRaylib(c).ToRaylib() == c.(a := 255)
  {
    ChannelOfUnit(c.r);
    ChannelOfUnit(c.g);
    ChannelOfUnit(c.b);
    ChannelOfUnit(c.a);
  }

  /** A colour built from four bytes packs back into those bytes, red lowest. */
  lemma UInt32RoundTrip(r: Byte, g: Byte, b: Byte, a: Byte)
    ensures Color4.FromUInt(r, g, b, a).ToUInt32() == Pack(r as bv8, g as bv8, b as bv8, a as bv8)
  {
    ChannelOfUnit(r);
    ChannelOfUnit(g);
    ChannelOfUnit(b);
    ChannelOfUnit(a);
  }

  /** Dropping alpha and putting it back gives the colour again. */
  lemma AlphaRoundTrip(c: Color4, alpha: real)
    ensures Color4.FromColor3(Color3.FromColor4(c), c.a) == c
    ensures c.WithAlpha(alpha).WithAlpha(c.a) == c
    ensures Color3.FromColor4(Color4.FromColor3(Color3.FromColor4(c), alpha)) == Color3.FromColor4(c)
  {
  }
}
