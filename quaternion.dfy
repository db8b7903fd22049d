/**
 * The rotation quaternion `Quat` (x, y, z, w): a default-constructed quaternion is the
 * identity (0, 0, 0, 1); `*` between quaternions is the Hamilton product.
 */
module Quaternion {
  import opened Scalar
  import opened Vector

  datatype Quat = Quat(x: real, y: real, z: real, w: real)
  {
    /** Also the value of `Quat()`. */
    static const Identity := Quat(0.0, 0.0, 0.0, 1.0)

    /** `explicit Quat(float value)` */
    static function Splat(value: real): Quat { Quat(value, value, value, value) }

    /** `explicit Quat(const Vec4&)` */
    static function FromVec4(v: Vec4): Quat { Quat(v.x, v.y, v.z, v.w) }

    /** `operator[]`: the source asserts `index <= 3`. */
    function Get(i: nat): real
      requires i <= 3
    {
      if i == 0 then x else if i == 1 then y else if i == 2 then z else w
    }

    /** Assignment through the reference `operator[]` returns. */
    function Set(i: nat, value: real): (r: Quat)
      requires i <= 3
      ensures r.Get(i) == value
      ensures forall j :: 0 <= j <= 3 && j != i ==> r.Get(j) == Get(j)
    {
      if i == 0 then this.(x := value)
      else if i == 1 then this.(y := value)
      else if i == 2 then this.(z := value)
      else this.(w := value)
    }

    /** `+` and `+=` between quaternions. */
    function Plus(q: Quat): Quat
    {
      Quat(x + q.x, y + q.y, z + q.z, w + q.w)
    }

    /** `-` and `-=` between quaternions. */
    function Minus(q: Quat): Quat
    {
      Quat(x - q.x, y - q.y, z - q.z, w - q.w)
    }

    /** `*` and `*=` between quaternions: the Hamilton product `this * q`. */
    function Times(q: Quat): Quat
    {
      Quat(w * q.x + x * q.w + y * q.z - z * q.y,
           w * q.y - x * q.z + y * q.w + z * q.x,
           w * q.z + x * q.y - y * q.x + z * q.w,
           w * q.w - x * q.x - y * q.y - z * q.z)
    }

    /** `this op s` for a scalar right operand (and the compound forms). */
    function CombineScalar(op: Op, s: real): Quat
    {
      Quat(Apply(op, x, s), Apply(op, y, s), Apply(op, z, s), Apply(op, w, s))
    }

    /**
     * `s op q` for a scalar left operand: `+` and `*` delegate to `q + s` and `q * s`,
     * the other three apply the operator with the scalar first.
     */
    static function ScalarCombine(op: Op, s: real, q: Quat): (r: Quat)
      ensures r == Quat(Apply(op, s, q.x), Apply(op, s, q.y), Apply(op, s, q.z), Apply(op, s, q.w))
      ensures op == Add || op == Mul ==> r == q.CombineScalar(op, s)
    {
      match op
      case Add => q.CombineScalar(Add, s)
      case Mul => q.CombineScalar(Mul, s)
      case _ => Quat(Apply(op, s, q.x), Apply(op, s, q.y), Apply(op, s, q.z), Apply(op, s, q.w))
    }

    function LengthSqr(): real
    {
      x * x + y * y + z * z + w * w
    }

    function Length(): real
    {
      Sqrt(x * x + y * y + z * z + w * w)
    }

    /** Divides by the length when it exceeds `1e-6`, otherwise the identity. */
    function Normalized(): (r: Quat)
      ensures Length() > Epsilon ==> r.CombineScalar(Mul, Length()) == this
      ensures Length() <= Epsilon ==> r == Identity
    {
      var len := Length();
      if len > Epsilon then CombineScalar(Div, len) else Identity
    }

    function Conjugate(): Quat
    {
      Quat(-x, -y, -z, w)
    }

    /**
     * The conjugate divided by the squared length when that exceeds `1e-6`, otherwise the
     * identity. Note the threshold is on the squared length, unlike `Normalized`.
     */
    function Inverse(): (r: Quat)
      ensures LengthSqr() <= Epsilon ==> r == Identity
      ensures LengthSqr() > Epsilon ==> r.CombineScalar(Mul, LengthSqr()) == Conjugate()
    {
      var lenSq := x * x + y * y + z * z + w * w;
      if lenSq > Epsilon then Conjugate().CombineScalar(Div, lenSq) else Identity
    }

    function Dot(q: Quat): real
    {
      x * q.x + y * q.y + z * q.z + w * q.w
    }

    /**
     * The operand `Slerp` actually interpolates towards, and the cosine it uses: the target
     * is negated when the dot product is negative, so the interpolation takes the shorter arc.
     */
    function SlerpOperand(target: Quat): (r: (Quat, real))
      ensures r.1 >= 0.0 && r.1 == Abs(Dot(target)) == Dot(r.0)
      ensures r.0 == target || r.0 == target.CombineScalar(Mul, -1.0)
    {
      var cosTheta := Dot(target);
      if cosTheta < 0.0 then (target.CombineScalar(Mul, -1.0), -cosTheta) else (target, cosTheta)
    }

    /**
     * Spherical interpolation: a normalised linear interpolation when the cosine exceeds
     * `0.9995`, the normalised midpoint when `sqrt(1 - cos^2)` is below `0.001`, and the
     * sine-weighted blend otherwise.
     */
    function Slerp(target: Quat, amount: real): (r: Quat)
      ensures Abs(Dot(target)) > 0.9995 && amount == 0.0 ==> r == Normalized()
      ensures Abs(Dot(target)) > 0.9995 && amount == 1.0 ==> r == SlerpOperand(target).0.Normalized()
    {
      var (q2, cosTheta) := SlerpOperand(target);
      if cosTheta > 0.9995 then
        Plus(q2.Minus(this).CombineScalar(Mul, amount)).Normalized()
      else
        var theta := Acos(cosTheta);
        var sinTheta := Sqrt(1.0 - cosTheta * cosTheta);
        if Abs(sinTheta) < 0.001 then
          CombineScalar(Mul, 0.5).Plus(q2.CombineScalar(Mul, 0.5)).Normalized()
        else
          var ratioA := Quot(Sin((1.0 - amount) * theta), sinTheta);
          var ratioB := Quot(Sin(amount * theta), sinTheta);
          CombineScalar(Mul, ratioA).Plus(q2.CombineScalar(Mul, ratioB)).Normalized()
    }

    /** `Quat * Vec3`: the vector part of `this * (v, 0) * this.Conjugate()`. */
    function Rotate(v: Vec3): Vec3
    {
      var r := Times(Quat(v.x, v.y, v.z, 0.0)).Times(Conjugate());
      Vec3(r.x, r.y, r.z)
    }
  }

  /** The identity is a two-sided unit of the Hamilton product. */
  lemma IdentityIsUnit(q: Quat)
    ensures Quat.Identity.Times(q) == q && q.Times(Quat.Identity) == q
  {
  }

  /** A quaternion times its conjugate is the real quaternion of its squared length. */
  lemma TimesConjugate(q: Quat)
    ensures q.Times(q.Conjugate()) == Quat(0.0, 0.0, 0.0, q.LengthSqr())
    ensures q.Conjugate().Times(q) == Quat(0.0, 0.0, 0.0, q.LengthSqr())
    ensures q.Conjugate().Conjugate() == q
  {
  }

  /** Conjugation reverses the order of a product. */
  lemma ConjugateOfProduct(a: Quat, b: Quat)
    ensures a.Times(b).Conjugate() == b.Conjugate().Times(a.Conjugate())
  {
    var l, r := a.Times(b).Conjugate(), b.Conjugate().Times(a.Conjugate());
    ConjugateOfProductX(a, b);
    ConjugateOfProductY(a, b);
    ConjugateOfProductZ(a, b);
    assert l.w == r.w;
  }

  lemma ConjugateOfProductX(a: Quat, b: Quat)
    ensures a.Times(b).Conjugate().x == b.Conjugate().Times(a.Conjugate()).x
  {
    var ca, cb := a.Conjugate(), b.Conjugate();
    ConjugateComponents(a.x, a.y, a.z, a.w, b.x, b.y, b.z, b.w, ca.x, ca.y, ca.z, ca.w, cb.x, cb.y, cb.z, cb.w);
    assert a.Times(b).Conjugate().x == -(a.w * b.x + a.x * b.w + a.y * b.z - a.z * b.y);
    assert cb.Times(ca).x == cb.w * ca.x + cb.x * ca.w + cb.y * ca.z - cb.z * ca.y;
  }

  lemma ConjugateOfProductY(a: Quat, b: Quat)
    ensures a.Times(b).Conjugate().y == b.Conjugate().Times(a.Conjugate()).y
  {
    var ca, cb := a.Conjugate(), b.Conjugate();
    ConjugateComponents(a.x, a.y, a.z, a.w, b.x, b.y, b.z, b.w, ca.x, ca.y, ca.z, ca.w, cb.x, cb.y, cb.z, cb.w);
    assert a.Times(b).Conjugate().y == -(a.w * b.y - a.x * b.z + a.y * b.w + a.z * b.x);
    assert cb.Times(ca).y == cb.w * ca.y - cb.x * ca.z + cb.y * ca.w + cb.z * ca.x;
  }

  lemma ConjugateOfProductZ(a: Quat, b: Quat)
    ensures a.Times(b).Conjugate().z == b.Conjugate().Times(a.Conjugate()).z
  {
    var ca, cb := a.Conjugate(), b.Conjugate();
    ConjugateComponents(a.x, a.y, a.z, a.w, b.x, b.y, b.z, b.w, ca.x, ca.y, ca.z, ca.w, cb.x, cb.y, cb.z, cb.w);
    assert a.Times(b).Conjugate().z == -(a.w * b.z + a.x * b.y - a.y * b.x + a.z * b.w);
    assert cb.Times(ca).z == cb.w * ca.z + cb.x * ca.y - cb.y * ca.x + cb.z * ca.w;
  }

  /** The component equations behind `ConjugateOfProduct`, with `c` and `d` the conjugates of `a` and `b`. */
  lemma ConjugateComponents(a0: real, a1: real, a2: real, a3: real, b0: real, b1: real, b2: real, b3: real,
                            c0: real, c1: real, c2: real, c3: real, d0: real, d1: real, d2: real, d3: real)
    requires c0 == -a0 && c1 == -a1 && c2 == -a2 && c3 == a3
    requires d0 == -b0 && d1 == -b1 && d2 == -b2 && d3 == b3
    ensures -(a3 * b0 + a0 * b3 + a1 * b2 - a2 * b1) == d3 * c0 + d0 * c3 + d1 * c2 - d2 * c1
    ensures -(a3 * b1 - a0 * b2 + a1 * b3 + a2 * b0) == d3 * c1 - d0 * c2 + d1 * c3 + d2 * c0
    ensures -(a3 * b2 + a0 * b1 - a1 * b0 + a2 * b3) == d3 * c2 + d0 * c1 - d1 * c0 + d2 * c3
  {
  }

  /** Above the threshold, `Inverse` is a two-sided inverse for the Hamilton product. */
  lemma InverseIsInverse(q: Quat)
    requires q.LengthSqr() > Epsilon
    ensures q.Times(q.Inverse()) == Quat.Identity
    ensures q.Inverse().Times(q) == Quat.Identity
  {
    var n := q.LengthSqr();
    var c := q.Conjugate();
    var inv := q.Inverse();
    var k := 1.0 / n;
    assert inv == Quat(c.x * k, c.y * k, c.z * k, c.w * k);
    TimesConjugate(q);
    var unit := Quat(0.0, 0.0, 0.0, n).CombineScalar(Mul, k);
    assert unit == Quat.Identity;
    ScaledProduct(q, c, k);
    ScaledProductLeft(c, q, k);
  }

  /** Scaling the right factor scales the product. */
  lemma ScaledProduct(a: Quat, b: Quat, k: real)
    ensures a.Times(Quat(b.x * k, b.y * k, b.z * k, b.w * k)) == a.Times(b).CombineScalar(Mul, k)
  {
    var q := Quat(b.x * k, b.y * k, b.z * k, b.w * k);
    ScaledProductX(a, b, q, k);
    ScaledProductY(a, b, q, k);
    ScaledProductZ(a, b, q, k);
    ScaledProductW(a, b, q, k);
  }

  lemma ScaledProductX(a: Quat, b: Quat, q: Quat, k: real)
    requires q.x == b.x * k && q.y == b.y * k && q.z == b.z * k && q.w == b.w * k
    ensures a.Times(q).x == a.Times(b).x * k
  {
    ScaledRowX(a.x, a.y, a.z, a.w, b.x, b.y, b.z, b.w, k, q.x, q.y, q.z, q.w, a.Times(b).x);
  }

  lemma ScaledProductY(a: Quat, b: Quat, q: Quat, k: real)
    requires q.x == b.x * k && q.y == b.y * k && q.z == b.z * k && q.w == b.w * k
    ensures a.Times(q).y == a.Times(b).y * k
  {
    ScaledRowY(a.x, a.y, a.z, a.w, b.x, b.y, b.z, b.w, k, q.x, q.y, q.z, q.w, a.Times(b).y);
  }

  lemma ScaledProductZ(a: Quat, b: Quat, q: Quat, k: real)
    requires q.x == b.x * k && q.y == b.y * k && q.z == b.z * k && q.w == b.w * k
    ensures a.Times(q).z == a.Times(b).z * k
  {
    ScaledRowZ(a.x, a.y, a.z, a.w, b.x, b.y, b.z, b.w, k, q.x, q.y, q.z, q.w, a.Times(b).z);
  }

  lemma ScaledProductW(a: Quat, b: Quat, q: Quat, k: real)
    requires q.x == b.x * k && q.y == b.y * k && q.z == b.z * k && q.w == b.w * k
    ensures a.Times(q).w == a.Times(b).w * k
  {
    ScaledRowW(a.x, a.y, a.z, a.w, b.x, b.y, b.z, b.w, k, q.x, q.y, q.z, q.w, a.Times(b).w);
  }

  /** Scaling the left factor scales the product. */
  lemma ScaledProductLeft(a: Quat, b: Quat, k: real)
    ensures Quat(a.x * k, a.y * k, a.z * k, a.w * k).Times(b) == a.Times(b).CombineScalar(Mul, k)
  {
    var p := Quat(a.x * k, a.y * k, a.z * k, a.w * k);
    ScaledProductLeftX(a, b, p, k);
    ScaledProductLeftY(a, b, p, k);
    ScaledProductLeftZ(a, b, p, k);
    ScaledProductLeftW(a, b, p, k);
  }

  lemma ScaledProductLeftX(a: Quat, b: Quat, p: Quat, k: real)
    requires p.x == a.x * k && p.y == a.y * k && p.z == a.z * k && p.w == a.w * k
    ensures p.Times(b).x == a.Times(b).x * k
  {
    ScaledLeftRowX(a.x, a.y, a.z, a.w, b.x, b.y, b.z, b.w, k, p.x, p.y, p.z, p.w, a.Times(b).x);
  }

  lemma ScaledProductLeftY(a: Quat, b: Quat, p: Quat, k: real)
    requires p.x == a.x * k && p.y == a.y * k && p.z == a.z * k && p.w == a.w * k
    ensures p.Times(b).y == a.Times(b).y * k
  {
    ScaledLeftRowY(a.x, a.y, a.z, a.w, b.x, b.y, b.z, b.w, k, p.x, p.y, p.z, p.w, a.Times(b).y);
  }

  lemma ScaledProductLeftZ(a: Quat, b: Quat, p: Quat, k: real)
    requires p.x == a.x * k && p.y == a.y * k && p.z == a.z * k && p.w == a.w * k
    ensures p.Times(b).z == a.Times(b).z * k
  {
    ScaledLeftRowZ(a.x, a.y, a.z, a.w, b.x, b.y, b.z, b.w, k, p.x, p.y, p.z, p.w, a.Times(b).z);
  }

  lemma ScaledProductLeftW(a: Quat, b: Quat, p: Quat, k: real)
    requires p.x == a.x * k && p.y == a.y * k && p.z == a.z * k && p.w == a.w * k
    ensures p.Times(b).w == a.Times(b).w * k
  {
    ScaledLeftRowW(a.x, a.y, a.z, a.w, b.x, b.y, b.z, b.w, k, p.x, p.y, p.z, p.w, a.Times(b).w);
  }

  lemma ScaledRowX(a0: real, a1: real, a2: real, a3: real, b0: real, b1: real, b2: real, b3: real, k: real,
                    c0: real, c1: real, c2: real, c3: real, t: real)
    requires c0 == b0 * k && c1 == b1 * k && c2 == b2 * k && c3 == b3 * k
    requires t == a3 * b0 + a0 * b3 + a1 * b2 - a2 * b1
    ensures a3 * c0 + a0 * c3 + a1 * c2 - a2 * c1 == t * k
  {
  }

  lemma ScaledRowY(a0: real, a1: real, a2: real, a3: real, b0: real, b1: real, b2: real, b3: real, k: real,
                    c0: real, c1: real, c2: real, c3: real, t: real)
    requires c0 == b0 * k && c1 == b1 * k && c2 == b2 * k && c3 == b3 * k
    requires t == a3 * b1 - a0 * b2 + a1 * b3 + a2 * b0
    ensures a3 * c1 - a0 * c2 + a1 * c3 + a2 * c0 == t * k
  {
  }

  lemma ScaledRowZ(a0: real, a1: real, a2: real, a3: real, b0: real, b1: real, b2: real, b3: real, k: real,
                    c0: real, c1: real, c2: real, c3: real, t: real)
    requires c0 == b0 * k && c1 == b1 * k && c2 == b2 * k && c3 == b3 * k
    requires t == a3 * b2 + a0 * b1 - a1 * b0 + a2 * b3
    ensures a3 * c2 + a0 * c1 - a1 * c0 + a2 * c3 == t * k
  {
  }

  lemma ScaledRowW(a0: real, a1: real, a2: real, a3: real, b0: real, b1: real, b2: real, b3: real, k: real,
                    c0: real, c1: real, c2: real, c3: real, t: real)
    requires c0 == b0 * k && c1 == b1 * k && c2 == b2 * k && c3 == b3 * k
    requires t == a3 * b3 - a0 * b0 - a1 * b1 - a2 * b2
    ensures a3 * c3 - a0 * c0 - a1 * c1 - a2 * c2 == t * k
  {
  }

  lemma ScaledLeftRowX(a0: real, a1: real, a2: real, a3: real, b0: real, b1: real, b2: real, b3: real, k: real,
                    c0: real, c1: real, c2: real, c3: real, t: real)
    requires c0 == a0 * k && c1 == a1 * k && c2 == a2 * k && c3 == a3 * k
    requires t == a3 * b0 + a0 * b3 + a1 * b2 - a2 * b1
    ensures c3 * b0 + c0 * b3 + c1 * b2 - c2 * b1 == t * k
  {
  }

  lemma ScaledLeftRowY(a0: real, a1: real, a2: real, a3: real, b0: real, b1: real, b2: real, b3: real, k: real,
                    c0: real, c1: real, c2: real, c3: real, t: real)
    requires c0 == a0 * k && c1 == a1 * k && c2 == a2 * k && c3 == a3 * k
    requires t == a3 * b1 - a0 * b2 + a1 * b3 + a2 * b0
    ensures c3 * b1 - c0 * b2 + c1 * b3 + c2 * b0 == t * k
  {
  }

  lemma ScaledLeftRowZ(a0: real, a1: real, a2: real, a3: real, b0: real, b1: real, b2: real, b3: real, k: real,
                    c0: real, c1: real, c2: real, c3: real, t: real)
    requires c0 == a0 * k && c1 == a1 * k && c2 == a2 * k && c3 == a3 * k
    requires t == a3 * b2 + a0 * b1 - a1 * b0 + a2 * b3
    ensures c3 * b2 + c0 * b1 - c1 * b0 + c2 * b3 == t * k
  {
  }

  lemma ScaledLeftRowW(a0: real, a1: real, a2: real, a3: real, b0: real, b1: real, b2: real, b3: real, k: real,
                    c0: real, c1: real, c2: real, c3: real, t: real)
    requires c0 == a0 * k && c1 == a1 * k && c2 == a2 * k && c3 == a3 * k
    requires t == a3 * b3 - a0 * b0 - a1 * b1 - a2 * b2
    ensures c3 * b3 - c0 * b0 - c1 * b1 - c2 * b2 == t * k
  {
  }

  /** Rotating by the identity leaves every vector unchanged. */
  lemma RotateByIdentity(v: Vec3)
    ensures Quat.Identity.Rotate(v) == v
  {
    var p := Quat(v.x, v.y, v.z, 0.0);
    var i := Quat.Identity;
    assert i.Times(p) == p;
    assert i.Conjugate() == i;
    assert p.Times(i) == p;
  }

  /** Rotating by a unit quaternion preserves the squared length of the vector. */
  lemma RotatePreservesLength(q: Quat, v: Vec3)
    requires q.LengthSqr() == 1.0
    ensures q.Rotate(v).LengthSqr() == v.LengthSqr()
  {
    var p := Quat(v.x, v.y, v.z, 0.0);
    var r := q.Times(p).Times(q.Conjugate());
    assert r.w == 0.0;
    NormMultiplicative(q.Times(p), q.Conjugate());
    NormMultiplicative(q, p);
  }

  /** The squared length of a product is the product of the squared lengths. */
  lemma NormMultiplicative(a: Quat, b: Quat)
    ensures a.Times(b).LengthSqr() == a.LengthSqr() * b.LengthSqr()
  {
    NormOfProduct(a, b, a.Times(b));
  }

  /** `NormMultiplicative` for a `p` whose components are those of the product. */
  lemma NormOfProduct(a: Quat, b: Quat, p: Quat)
    requires p.x == a.w * b.x + a.x * b.w + a.y * b.z - a.z * b.y
    requires p.y == a.w * b.y - a.x * b.z + a.y * b.w + a.z * b.x
    requires p.z == a.w * b.z + a.x * b.y - a.y * b.x + a.z * b.w
    requires p.w == a.w * b.w - a.x * b.x - a.y * b.y - a.z * b.z
    ensures p.LengthSqr() == a.LengthSqr() * b.LengthSqr()
  {
    FourSquares(a.x, a.y, a.z, a.w, b.x, b.y, b.z, b.w, p.x, p.y, p.z, p.w);
  }

  /** Euler's four-square identity, on the components of a Hamilton product. */
  lemma FourSquares(a0: real, a1: real, a2: real, a3: real, b0: real, b1: real, b2: real, b3: real,
                    p0: real, p1: real, p2: real, p3: real)
    requires p0 == a3 * b0 + a0 * b3 + a1 * b2 - a2 * b1
    requires p1 == a3 * b1 - a0 * b2 + a1 * b3 + a2 * b0
    requires p2 == a3 * b2 + a0 * b1 - a1 * b0 + a2 * b3
    requires p3 == a3 * b3 - a0 * b0 - a1 * b1 - a2 * b2
    ensures p0 * p0 + p1 * p1 + p2 * p2 + p3 * p3
      == (a0 * a0 + a1 * a1 + a2 * a2 + a3 * a3) * (b0 * b0 + b1 * b1 + b2 * b2 + b3 * b3)
  {
  }

  /** `Dot` is symmetric, and a quaternion's dot with itself is its squared length. */
  lemma QuatDotSymmetric(p: Quat, q: Quat)
    ensures p.Dot(q) == q.Dot(p)
    ensures q.Dot(q) == q.LengthSqr() >= 0.0
  {
  }

  /** `+` is commutative and `-` undoes it, component by component. */
  lemma QuatPlusMinus(p: Quat, q: Quat)
    ensures p.Plus(q) == q.Plus(p)
    ensures p.Plus(q).Minus(q) == p && p.Minus(q).Plus(q) == p
    ensures p.Minus(p) == Quat(0.0, 0.0, 0.0, 0.0)
  {
  }
}
