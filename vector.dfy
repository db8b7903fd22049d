/**
 * The value types `Vec2`, `Vec3` and `Vec4`: components default to zero, the five
 * operators act component by component (vector with vector, vector with scalar, scalar
 * with vector), and a compound operator such as `+=` assigns the binary result back.
 */
module Vector {
  import opened Scalar

  datatype Vec2 = Vec2(x: real, y: real)
  {
    static const Zero := Vec2(0.0, 0.0)
    static const One := Vec2(1.0, 1.0)
    static const Up := Vec2(0.0, 1.0)
    static const Down := Vec2(0.0, -1.0)
    static const Left := Vec2(-1.0, 0.0)
    static const Right := Vec2(1.0, 0.0)

    /** `explicit Vec2(float value)` */
    static function Splat(value: real): Vec2 { Vec2(value, value) }

    /** `Vec2(const Vec3&)`: keeps x and y. */
    static function FromVec3(v: Vec3): Vec2 { Vec2(v.x, v.y) }

    /** `Vec2(const Vec4&)`: keeps x and y. */
    static function FromVec4(v: Vec4): Vec2 { Vec2(v.x, v.y) }

    /** `operator[]`: the source asserts `index <= 1`. */
    function Get(i: nat): real
      requires i <= 1
    {
      if i == 0 then x else y
    }

    /** Assignment through the reference `operator[]` returns. */
    function Set(i: nat, value: real): (r: Vec2)
      requires i <= 1
      ensures r.Get(i) == value
      ensures forall j :: 0 <= j <= 1 && j != i ==> r.Get(j) == Get(j)
    {
      if i == 0 then this.(x := value) else this.(y := value)
    }

    /** `this op v` for a vector right operand. */
    function Combine(op: Op, v: Vec2): Vec2
    {
      Vec2(Apply(op, x, v.x), Apply(op, y, v.y))
    }

    /** `this op s` for a scalar right operand. */
    function CombineScalar(op: Op, s: real): Vec2
    {
      Vec2(Apply(op, x, s), Apply(op, y, s))
    }

    /** `s op v` for a scalar left operand. */
    static function ScalarCombine(op: Op, s: real, v: Vec2): Vec2
    {
      Vec2(Apply(op, s, v.x), Apply(op, s, v.y))
    }

    function Length(): real
    {
      Sqrt(x * x + y * y)
    }

    /** Divides by the length when it exceeds `1e-6`, otherwise the zero vector. */
    function Normalized(): (r: Vec2)
      ensures Length() > Epsilon ==> r.CombineScalar(Mul, Length()) == this
      ensures Length() <= Epsilon ==> r == Zero
    {
      var len := Length();
      if len > Epsilon then CombineScalar(Div, len) else Zero
    }

    /** Each component passed through `std::clamp(c, min, max)`. */
    function Clamp(min: real, max: real): (r: Vec2)
      ensures min <= max ==> min <= r.x <= max && min <= r.y <= max
      ensures min <= x <= max && min <= y <= max ==> r == this
    {
      Vec2(Scalar.Clamp(x, min, max), Scalar.Clamp(y, min, max))
    }

    /** `*this + (target - *this) * amount` */
    function Lerp(target: Vec2, amount: real): (r: Vec2)
      ensures amount == 0.0 ==> r == this
      ensures amount == 1.0 ==> r == target
    {
      Combine(Add, target.Combine(Sub, this).CombineScalar(Mul, amount))
    }
  }

  datatype Vec3 = Vec3(x: real, y: real, z: real)
  {
    static const Zero := Vec3(0.0, 0.0, 0.0)
    static const One := Vec3(1.0, 1.0, 1.0)
    static const Up := Vec3(0.0, 1.0, 0.0)
    static const Down := Vec3(0.0, -1.0, 0.0)
    static const Left := Vec3(-1.0, 0.0, 0.0)
    static const Right := Vec3(1.0, 0.0, 0.0)
    static const Forward := Vec3(0.0, 0.0, 1.0)
    static const Back := Vec3(0.0, 0.0, -1.0)

    /** `explicit Vec3(float value)` */
    static function Splat(value: real): Vec3 { Vec3(value, value, value) }

    /** `explicit Vec3(const Vec2&, float z = 0.0f)` */
    static function FromVec2(v: Vec2, z: real := 0.0): Vec3 { Vec3(v.x, v.y, z) }

    /** `Vec3(const Vec4&)`: drops w. */
    static function FromVec4(v: Vec4): Vec3 { Vec3(v.x, v.y, v.z) }

    /** `operator[]`: the source asserts `index <= 2`. */
    function Get(i: nat): real
      requires i <= 2
    {
      if i == 0 then x else if i == 1 then y else z
    }

    /** Assignment through the reference `operator[]` returns. */
    function Set(i: nat, value: real): (r: Vec3)
      requires i <= 2
      ensures r.Get(i) == value
      ensures forall j :: 0 <= j <= 2 && j != i ==> r.Get(j) == Get(j)
    {
      if i == 0 then this.(x := value) else if i == 1 then this.(y := value) else this.(z := value)
    }

    /** `this op v` for a vector right operand. */
    function Combine(op: Op, v: Vec3): Vec3
    {
      Vec3(Apply(op, x, v.x), Apply(op, y, v.y), Apply(op, z, v.z))
    }

    /** `this op s` for a scalar right operand. */
    function CombineScalar(op: Op, s: real): Vec3
    {
      Vec3(Apply(op, x, s), Apply(op, y, s), Apply(op, z, s))
    }

    /** `s op v` for a scalar left operand. */
    static function ScalarCombine(op: Op, s: real, v: Vec3): Vec3
    {
      Vec3(Apply(op, s, v.x), Apply(op, s, v.y), Apply(op, s, v.z))
    }

    function LengthSqr(): real
    {
      x * x + y * y + z * z
    }

    function Length(): real
    {
      Sqrt(x * x + y * y + z * z)
    }

    /** Divides by the length when it exceeds `1e-6`, otherwise the zero vector. */
    function Normalized(): (r: Vec3)
      ensures Length() > Epsilon ==> r.CombineScalar(Mul, Length()) == this
      ensures Length() <= Epsilon ==> r == Zero
    {
      var len := Length();
      if len > Epsilon then CombineScalar(Div, len) else Zero
    }

    /** `*this + (target - *this) * amount` */
    function Lerp(target: Vec3, amount: real): (r: Vec3)
      ensures amount == 0.0 ==> r == this
      ensures amount == 1.0 ==> r == target
    {
      Combine(Add, target.Combine(Sub, this).CombineScalar(Mul, amount))
    }

    /** Each component passed through `std::clamp(c, min, max)`. */
    function Clamp(min: real, max: real): (r: Vec3)
      ensures min <= max ==> min <= r.x <= max && min <= r.y <= max && min <= r.z <= max
      ensures min <= x <= max && min <= y <= max && min <= z <= max ==> r == this
    {
      Vec3(Scalar.Clamp(x, min, max), Scalar.Clamp(y, min, max), Scalar.Clamp(z, min, max))
    }

    function Dot(v: Vec3): real
    {
      x * v.x + y * v.y + z * v.z
    }

    function Cross(v: Vec3): (r: Vec3)
      ensures Dot(r) == 0.0 && v.Dot(r) == 0.0
    {
      Vec3(y * v.z - z * v.y, z * v.x - x * v.z, x * v.y - y * v.x)
    }

    /**
     * The cosine `Angle` takes the arc cosine of: the normalised dot product clamped to
     * [-1, 1]. Only meaningful when both lengths are at least `1e-6`.
     */
    function AngleCosine(v: Vec3): (c: real)
      ensures -1.0 <= c <= 1.0
      ensures var q := Quot(Dot(v), Length() * v.Length());
        (-1.0 <= q <= 1.0 ==> c == q) && (q < -1.0 ==> c == -1.0) && (q > 1.0 ==> c == 1.0)
      ensures Length() * v.Length() != 0.0 && Dot(v) == 0.0 ==> c == 0.0
    {
      Scalar.Clamp(Quot(Dot(v), Length() * v.Length()), -1.0, 1.0)
    }

    /** Zero when either vector is shorter than `1e-6`, otherwise `acosf` of the clamped cosine. */
    function Angle(v: Vec3): (r: real)
      ensures Length() < Epsilon || v.Length() < Epsilon ==> r == 0.0
      ensures Length() >= Epsilon && v.Length() >= Epsilon ==>
        exists c :: -1.0 <= c <= 1.0 && r == Acos(c)
      ensures Length() >= Epsilon && v.Length() >= Epsilon ==> r == Acos(AngleCosine(v))
      ensures Length() >= Epsilon && v.Length() >= Epsilon && Dot(v) == 0.0 ==> r == Acos(0.0)
    {
      var len1 := Length();
      var len2 := v.Length();
      if len1 < Epsilon || len2 < Epsilon then 0.0 else Acos(AngleCosine(v))
    }

    function Distance(v: Vec3): real
    {
      Combine(Sub, v).Length()
    }

    function DistanceSqr(v: Vec3): (r: real)
      ensures r >= 0.0
    {
      Combine(Sub, v).LengthSqr()
    }

    /** `*this - 2.0f * Dot(normal) * normal` */
    function Reflect(normal: Vec3): Vec3
    {
      Combine(Sub, ScalarCombine(Mul, 2.0 * Dot(normal), normal))
    }
  }

  datatype Vec4 = Vec4(x: real, y: real, z: real, w: real)
  {
    static const Zero := Vec4(0.0, 0.0, 0.0, 0.0)
    static const One := Vec4(1.0, 1.0, 1.0, 1.0)

    /** `explicit Vec4(float value)` */
    static function Splat(value: real): Vec4 { Vec4(value, value, value, value) }

    /** `explicit Vec4(const Vec2&, float z = 0.0f, float w = 0.0f)` */
    static function FromVec2(v: Vec2, z: real := 0.0, w: real := 0.0): Vec4 { Vec4(v.x, v.y, z, w) }

    /** `explicit Vec4(const Vec3&, float w = 0.0f)` */
    static function FromVec3(v: Vec3, w: real := 0.0): Vec4 { Vec4(v.x, v.y, v.z, w) }

    /** `operator[]`: the source asserts `index <= 3`. */
    function Get(i: nat): real
      requires i <= 3
    {
      if i == 0 then x else if i == 1 then y else if i == 2 then z else w
    }

    /** Assignment through the reference `operator[]` returns. */
    function Set(i: nat, value: real): (r: Vec4)
      requires i <= 3
      ensures r.Get(i) == value
      ensures forall j :: 0 <= j <= 3 && j != i ==> r.Get(j) == Get(j)
    {
      if i == 0 then this.(x := value)
      else if i == 1 then this.(y := value)
      else if i == 2 then this.(z := value)
      else this.(w := value)
    }

    /** `this op v` for a vector right operand. */
    function Combine(op: Op, v: Vec4): Vec4
    {
      Vec4(Apply(op, x, v.x), Apply(op, y, v.y), Apply(op, z, v.z), Apply(op, w, v.w))
    }

    /** `this op s` for a scalar right operand. */
    function CombineScalar(op: Op, s: real): Vec4
    {
      Vec4(Apply(op, x, s), Apply(op, y, s), Apply(op, z, s), Apply(op, w, s))
    }

    /** `s op v` for a scalar left operand. */
    static function ScalarCombine(op: Op, s: real, v: Vec4): Vec4
    {
      Vec4(Apply(op, s, v.x), Apply(op, s, v.y), Apply(op, s, v.z), Apply(op, s, v.w))
    }

    function Length(): real
    {
      Sqrt(x * x + y * y + z * z + w * w)
    }

    /** Divides by the length when it exceeds `1e-6`, otherwise the zero vector. */
    function Normalized(): (r: Vec4)
      ensures Length() > Epsilon ==> r.CombineScalar(Mul, Length()) == this
      ensures Length() <= Epsilon ==> r == Zero
    {
      var len := Length();
      if len > Epsilon then CombineScalar(Div, len) else Zero
    }

    /** Each component passed through `std::clamp(c, min, max)`. */
    function Clamp(min: real, max: real): (r: Vec4)
      ensures min <= max ==> min <= r.x <= max && min <= r.y <= max && min <= r.z <= max && min <= r.w <= max
      ensures min <= x <= max && min <= y <= max && min <= z <= max && min <= w <= max ==> r == this
    {
      Vec4(Scalar.Clamp(x, min, max), Scalar.Clamp(y, min, max), Scalar.Clamp(z, min, max), Scalar.Clamp(w, min, max))
    }
  }

  /** The three operator families agree: a scalar operand acts as the vector of its splat. */
  lemma Vec3ScalarOperandsAreSplats(op: Op, v: Vec3, s: real)
    ensures v.CombineScalar(op, s) == v.Combine(op, Vec3.Splat(s))
    ensures Vec3.ScalarCombine(op, s, v) == Vec3.Splat(s).Combine(op, v)
    ensures forall i :: 0 <= i <= 2 ==> v.Combine(op, Vec3.Splat(s)).Get(i) == Apply(op, v.Get(i), s)
  {
  }

  /** Each coordinate of a vector-vector operation depends only on that coordinate. */
  lemma Vec4CombineByIndex(op: Op, a: Vec4, b: Vec4)
    ensures forall i :: 0 <= i <= 3 ==> a.Combine(op, b).Get(i) == Apply(op, a.Get(i), b.Get(i))
  {
  }

  /** Dropping the coordinates a widening constructor added gives the original vector back. */
  lemma WidenThenNarrow(v2: Vec2, v3: Vec3, z: real, w: real)
    ensures Vec2.FromVec3(Vec3.FromVec2(v2, z)) == v2
    ensures Vec2.FromVec4(Vec4.FromVec2(v2, z, w)) == v2
    ensures Vec3.FromVec4(Vec4.FromVec3(v3, w)) == v3
    ensures Vec3.FromVec4(Vec4.FromVec2(v2, z, w)) == Vec3.FromVec2(v2, z)
  {
  }

  lemma DotSymmetric(a: Vec3, b: Vec3)
    ensures a.Dot(b) == b.Dot(a)
    ensures a.Dot(a) == a.LengthSqr() >= 0.0
    ensures a.DistanceSqr(b) == b.DistanceSqr(a)
  {
  }

  /** The angle between two vectors, and the cosine it comes from, do not depend on their order. */
  lemma AngleSymmetric(a: Vec3, b: Vec3)
    ensures a.AngleCosine(b) == b.AngleCosine(a)
    ensures a.Angle(b) == b.Angle(a)
  {
    DotSymmetric(a, b);
    assert a.Length() * b.Length() == b.Length() * a.Length();
  }

  lemma CrossAntiCommutative(a: Vec3, b: Vec3)
    ensures b.Cross(a) == a.Cross(b).CombineScalar(Mul, -1.0)
    ensures a.Cross(a) == Vec3.Zero
  {
  }

  /** For a unit normal, reflecting flips the normal component and reflecting twice is the identity. */
  lemma ReflectAcrossUnitNormal(v: Vec3, n: Vec3)
    requires n.LengthSqr() == 1.0
    ensures v.Reflect(n).Dot(n) == -v.Dot(n)
    ensures v.Reflect(n).Reflect(n) == v
  {
    var d := v.Dot(n);
    var r := v.Reflect(n);
    assert r == Vec3(v.x - 2.0 * d * n.x, v.y - 2.0 * d * n.y, v.z - 2.0 * d * n.z);
    assert r.Dot(n) == d - 2.0 * d * n.LengthSqr();
  }
}
